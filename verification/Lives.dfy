/** What can happen to a snake between its spawn and its death, and what follows for its shape. */
module Lives {
  import opened Arithmetic
  import opened Chains

  datatype Event = Moved(dir: Direction, at: int) | Grew

  /** The events of a snake so far, the latest last. */
  type Life = seq<Event>

  function Earlier(life: Life): Life
    requires life != []
  {
    life[..|life| - 1]
  }

  function Latest(life: Life): Event
    requires life != []
  {
    life[|life| - 1]
  }

  /** The body after a life. */
  function ChainOf(spawn: Pos, life: Life): Chain {
    if life == [] then Spawn(spawn)
    else match Latest(life)
      case Moved(d, _) => Move(ChainOf(spawn, Earlier(life)), d)
      case Grew => Grow(ChainOf(spawn, Earlier(life)))
  }

  /** Every cell the head has been in, the spawn cell first. */
  function History(spawn: Pos, life: Life): (h: seq<Pos>)
    ensures |h| > 0
  {
    if life == [] then [spawn]
    else
      var h := History(spawn, Earlier(life));
      match Latest(life)
      case Moved(d, _) => h + [Step(h[|h| - 1], d)]
      case Grew => h
  }

  /** The direction of the latest move. A new snake faces up. */
  function Heading(life: Life): Direction {
    if life == [] then '^'
    else match Latest(life)
      case Moved(d, _) => d
      case Grew => Heading(Earlier(life))
  }

  /** No move turns back on the one before it. */
  predicate NeverReverses(life: Life) {
    life == [] ||
    (NeverReverses(Earlier(life)) && (Latest(life).Moved? ==> Latest(life).dir != Opposite(Heading(Earlier(life)))))
  }

  /** For every segment, and for the cell the last one came from, a moment in the head's history. */
  function Moments(life: Life): (ix: seq<nat>)
    ensures |ix| >= 2
  {
    if life == [] then [0, 0]
    else
      var ix := Moments(Earlier(life));
      match Latest(life)
      case Moved(_, _) => [ix[0] + 1] + ix[..|ix| - 1]
      case Grew => ix + [ix[|ix| - 1]]
  }

  /** The head is the latest cell of its history. */
  lemma {:induction false} HeadIsLatest(spawn: Pos, life: Life)
    ensures var h := History(spawn, life); ChainOf(spawn, life)[0].pos == h[|h| - 1]
  {
    if life != [] {
      HeadIsLatest(spawn, Earlier(life));
      GrowAt(ChainOf(spawn, Earlier(life)));
    }
  }

  /** Segments of c, and where they were before, as moments ix of the head's history h. */
  ghost predicate Follows(c: Chain, h: seq<Pos>, ix: seq<nat>) {
    && |ix| == |c| + 1
    && ix[0] == |h| - 1
    && (forall i :: 0 <= i < |ix| ==> ix[i] < |h|)
    && (forall i :: 0 <= i < |c| ==> c[i].pos == h[ix[i]] && c[i].prev == h[ix[i + 1]])
    && (forall i :: 0 <= i < |c| ==> ix[i + 1] <= ix[i] <= ix[i + 1] + 1)
    && (|h| >= 2 ==> ix[1] == |h| - 2)
  }

  lemma FollowsMove(c: Chain, h: seq<Pos>, ix: seq<nat>, p: Pos)
    requires Follows(c, h, ix)
    ensures Follows(MoveTo(c, p), h + [p], [ix[0] + 1] + ix[..|ix| - 1])
  {
    MoveToAt(c, p);
    var c', h', ix' := MoveTo(c, p), h + [p], [ix[0] + 1] + ix[..|ix| - 1];
    forall i | 0 <= i < |c'|
      ensures c'[i].pos == h'[ix'[i]] && c'[i].prev == h'[ix'[i + 1]] && ix'[i + 1] <= ix'[i] <= ix'[i + 1] + 1
    {
      assert ix'[i + 1] == ix[i];
      if i > 0 { assert ix'[i] == ix[i - 1]; }
    }
  }

  lemma FollowsGrow(c: Chain, h: seq<Pos>, ix: seq<nat>)
    requires Follows(c, h, ix)
    ensures Follows(Grow(c), h, ix + [ix[|ix| - 1]])
  {
    GrowAt(c);
  }

  /** Body follows the head: each segment is where the head was at its moment. The moments start at
      the latest one and fall by 0 or 1 from segment to segment; after a first move the second is
      exactly one step behind the head. */
  lemma {:induction false} BodyFollowsHead(spawn: Pos, life: Life)
    ensures Follows(ChainOf(spawn, life), History(spawn, life), Moments(life))
  {
    if life != [] {
      var e := Earlier(life);
      BodyFollowsHead(spawn, e);
      var c, h, ix := ChainOf(spawn, e), History(spawn, e), Moments(e);
      match Latest(life) {
        case Moved(d, _) => FollowsMove(c, h, ix, Step(c[0].pos, d));
        case Grew => FollowsGrow(c, h, ix);
      }
    }
  }

  function Distance(p: Pos, q: Pos): nat {
    (if p.x < q.x then q.x - p.x else p.x - q.x) + (if p.y < q.y then q.y - p.y else p.y - q.y)
  }

  lemma {:induction false} HistoryStepsByOne(spawn: Pos, life: Life)
    ensures var h := History(spawn, life);
      && (forall k :: 1 <= k < |h| ==> Distance(h[k], h[k - 1]) == 1)
      && (|h| >= 2 ==> h[|h| - 1] == Step(h[|h| - 2], Heading(life)))
  {
    if life != [] { HistoryStepsByOne(spawn, Earlier(life)); }
  }

  /** Consecutive segments are in the same cell or in neighbouring ones. */
  lemma SegmentsTouch(spawn: Pos, life: Life)
    ensures var c := ChainOf(spawn, life);
      && (forall i :: 0 <= i < |c| ==> Distance(c[i].pos, c[i].prev) <= 1)
      && (forall i :: 0 <= i < |c| - 1 ==> c[i + 1].pos == c[i].prev)
  {
    BodyFollowsHead(spawn, life);
    HistoryStepsByOne(spawn, life);
    var c, h, ix := ChainOf(spawn, life), History(spawn, life), Moments(life);
    forall i | 0 <= i < |c| ensures Distance(c[i].pos, c[i].prev) <= 1 {
      if ix[i + 1] != ix[i] {
        assert Distance(h[ix[i]], h[ix[i] - 1]) == 1;
      }
    }
  }

  /** An even number of steps, or an odd one, separates p and q, as k is even or odd. */
  predicate ParityOf(p: Pos, q: Pos, k: int) {
    (p.x + p.y - q.x - q.y - k) % 2 == 0
  }

  lemma {:induction false} HistoryParity(spawn: Pos, life: Life)
    ensures forall k :: 0 <= k < |History(spawn, life)| ==> ParityOf(History(spawn, life)[k], spawn, k)
  {
    if life != [] {
      HistoryParity(spawn, Earlier(life));
      var h := History(spawn, Earlier(life));
      assert ParityOf(h[|h| - 1], spawn, |h| - 1);
    }
  }

  /** A snake that never reverses is not in the cell it was in two moves ago. */
  lemma {:induction false} NoReturnInTwo(spawn: Pos, life: Life)
    requires NeverReverses(life)
    ensures var h := History(spawn, life); forall k :: 2 <= k < |h| ==> h[k] != h[k - 2]
  {
    if life != [] {
      NoReturnInTwo(spawn, Earlier(life));
      HistoryStepsByOne(spawn, Earlier(life));
      var h, h' := History(spawn, Earlier(life)), History(spawn, life);
      forall k | 2 <= k < |h'| ensures h'[k] != h'[k - 2] {
        if k == |h| { assert h[k - 1] == Step(h[k - 2], Heading(Earlier(life))); }
      }
    }
  }

  /** The moments of the segments behind the head of a short snake: the head's, less one to three. */
  lemma ShortMoments(c: Chain, h: seq<Pos>, ix: seq<nat>, i: nat)
    requires Follows(c, h, ix) && |h| >= 2 && 1 <= i < |c| < 5
    ensures |h| - 2 >= ix[i] >= |h| - 4
  {
    if i >= 2 { assert ix[2] <= ix[1]; }
    if i >= 3 { assert ix[3] <= ix[2]; }
  }

  lemma NotWhereItWas(spawn: Pos, life: Life, k: nat)
    requires NeverReverses(life) && |History(spawn, life)| - 2 >= k >= |History(spawn, life)| - 4
    ensures var h := History(spawn, life); h[k] != h[|h| - 1]
  {
    var h := History(spawn, life);
    HistoryParity(spawn, life);
    NoReturnInTwo(spawn, life);
    assert ParityOf(h[|h| - 1], spawn, |h| - 1) && ParityOf(h[k], spawn, k);
    if k == |h| - 3 { assert h[k + 2] != h[k]; }
  }

  /** Once it has moved, a snake of fewer than five segments is never on its own body. */
  lemma ShortSnakesCannotBite(spawn: Pos, life: Life)
    requires NeverReverses(life)
    requires |History(spawn, life)| >= 2
    requires |ChainOf(spawn, life)| < 5
    ensures ChainOf(spawn, life)[0].pos !in Body(ChainOf(spawn, life))
  {
    BodyFollowsHead(spawn, life);
    var c, h, ix := ChainOf(spawn, life), History(spawn, life), Moments(life);
    forall i | 1 <= i < |c| ensures c[i].pos != c[0].pos {
      ShortMoments(c, h, ix, i);
      NotWhereItWas(spawn, life, ix[i]);
    }
  }

  /** One more event. */
  lemma OneMore(spawn: Pos, life: Life, e: Event)
    ensures ChainOf(spawn, life + [e]) ==
      if e.Moved? then Move(ChainOf(spawn, life), e.dir) else Grow(ChainOf(spawn, life))
    ensures Heading(life + [e]) == if e.Moved? then e.dir else Heading(life)
    ensures NeverReverses(life) && (e.Moved? ==> e.dir != Opposite(Heading(life))) ==> NeverReverses(life + [e])
  {
    assert Earlier(life + [e]) == life && Latest(life + [e]) == e;
  }

  /** Up, left, down, with food on the way. */
  lemma HalfCircle(p: Pos) returns (life: Life)
    ensures NeverReverses(life) && Heading(life) == 'v'
    ensures ChainOf(p, life) == Move(Grow(Move(Grow(Move(Spawn(p), '^')), '<')), 'v')
  {
    var a: Life := [] + [Moved('^', 1)];
    OneMore(p, [], Moved('^', 1));
    OneMore(p, a, Grew);
    OneMore(p, a + [Grew], Moved('<', 2));
    var c := a + [Grew] + [Moved('<', 2)];
    OneMore(p, c, Grew);
    OneMore(p, c + [Grew], Moved('v', 3));
    life := c + [Grew] + [Moved('v', 3)];
  }

  /** Food twice, then right: onto a cell that two segments have grown in. */
  lemma FullCircle(p: Pos, life: Life) returns (z: Life)
    requires NeverReverses(life) && Heading(life) == 'v'
    ensures NeverReverses(z) && ChainOf(p, z) == Move(Grow(Grow(ChainOf(p, life))), '>')
  {
    OneMore(p, life, Grew);
    OneMore(p, life + [Grew], Grew);
    OneMore(p, life + [Grew] + [Grew], Moved('>', 4));
    z := life + [Grew] + [Grew] + [Moved('>', 4)];
  }

  lemma ThreeSegments(p: Pos)
    requires p == Pos(0, 0)
    ensures Grow(Move(Grow(Move(Spawn(p), '^')), '<')) ==
      [Node(Pos(-1, -1), Pos(0, -1)), Node(Pos(0, -1), p), Node(p, p)]
  {
    assert Move(Spawn(p), '^') == [Node(Pos(0, -1), p)];
    var two := Grow(Move(Spawn(p), '^'));
    assert two == [Node(Pos(0, -1), p), Node(p, p)];
    MoveToAt(two, Pos(-1, -1));
    assert Move(two, '<') == [Node(Pos(-1, -1), Pos(0, -1)), Node(Pos(0, -1), p)];
    GrowAt(Move(two, '<'));
  }

  lemma FiveSegments(p: Pos, three: Chain)
    requires p == Pos(0, 0) && three == [Node(Pos(-1, -1), Pos(0, -1)), Node(Pos(0, -1), p), Node(p, p)]
    ensures var c := Move(Grow(Grow(Move(three, 'v'))), '>');
      |c| == 5 && c[0].pos in Body(c)
  {
    MoveToAt(three, Pos(-1, 0));
    var x := Move(three, 'v');
    assert x == MoveTo(three, Pos(-1, 0)) && |x| == 3;
    assert x[1] == Node(three[0].pos, three[1].pos) && x[2] == Node(three[1].pos, three[2].pos);
    assert x == [Node(Pos(-1, 0), Pos(-1, -1)), Node(Pos(-1, -1), Pos(0, -1)), Node(Pos(0, -1), p)];
    GrowAt(x);
    GrowAt(Grow(x));
    var w := Grow(Grow(x));
    assert w == x + [Node(p, p), Node(p, p)];
    MoveToAt(w, p);
    var c := Move(w, '>');
    assert c == MoveTo(w, p) && |c| == 5;
    assert c[4].pos == w[3].pos == p;
    assert Body(c)[3] == p;
  }

  /** Five segments are enough to bite: the bound is exact. */
  lemma FiveCanBite()
    ensures exists spawn, life ::
      NeverReverses(life) && |ChainOf(spawn, life)| == 5 && ChainOf(spawn, life)[0].pos in Body(ChainOf(spawn, life))
  {
    var p := Pos(0, 0);
    var half := HalfCircle(p);
    var life := FullCircle(p, half);
    ThreeSegments(p);
    FiveSegments(p, Grow(Move(Grow(Move(Spawn(p), '^')), '<')));
    assert NeverReverses(life) && |ChainOf(p, life)| == 5;
  }

  // ---------- how often a snake can move ----------

  function MoveTimes(life: Life): seq<int> {
    if life == [] then []
    else match Latest(life)
      case Moved(_, t) => MoveTimes(Earlier(life)) + [t]
      case Grew => MoveTimes(Earlier(life))
  }

  predicate Spaced(times: seq<int>, gap: int) {
    forall i :: 1 <= i < |times| ==> times[i - 1] + gap <= times[i]
  }

  /** The number of times in [a, b]. */
  function CountWithin(times: seq<int>, a: int, b: int): nat {
    if times == [] then 0
    else
      var n := |times| - 1;
      CountWithin(times[..n], a, b) + if a <= times[n] <= b then 1 else 0
  }

  lemma {:induction false} CountNarrowed(times: seq<int>, a: int, b: int, c: int)
    requires c <= b
    requires forall i :: 0 <= i < |times| ==> times[i] <= c
    ensures CountWithin(times, a, b) == CountWithin(times, a, c)
  {
    if times != [] {
      var n := |times| - 1;
      CountNarrowed(times[..n], a, b, c);
    }
  }

  lemma {:induction false} SpacedIsSorted(times: seq<int>, gap: int)
    requires gap > 0 && Spaced(times, gap) && times != []
    ensures forall i :: 0 <= i < |times| - 1 ==> times[i] <= times[|times| - 1] - gap
  {
    var n := |times| - 1;
    if n > 0 {
      SpacedIsSorted(times[..n], gap);
    }
  }

  lemma {:induction false} CountReaches(times: seq<int>, a: int, b: int, gap: int)
    requires gap > 0 && Spaced(times, gap)
    ensures CountWithin(times, a, b) > 0 ==> a + (CountWithin(times, a, b) - 1) * gap <= b
  {
    if times != [] {
      var n := |times| - 1;
      var last := times[n];
      CountReaches(times[..n], a, b, gap);
      if a <= last <= b {
        SpacedIsSorted(times, gap);
        CountNarrowed(times[..n], a, b, last - gap);
        CountReaches(times[..n], a, last - gap, gap);
        var k := CountWithin(times[..n], a, b);
        assert (k - 1) * gap + gap == k * gap;
      }
    }
  }

  lemma PastQuotient(k: int, gap: int, d: int)
    requires gap > 0 && k > d / gap
    ensures k * gap > d
  {
    var q := d / gap;
    Scaled(q + 1, k, gap);
    assert d == q * gap + d % gap;
    assert (q + 1) * gap == q * gap + gap;
  }

  lemma QuotientBound(k: int, gap: int, d: int)
    requires gap > 0 && k * gap <= d
    ensures k <= d / gap
  {
    if k > d / gap { PastQuotient(k, gap, d); }
  }

  /** Moves at least gap apart: a span of length d holds at most d / gap + 1 of them. */
  lemma MovementRate(times: seq<int>, a: int, d: nat, gap: int)
    requires gap > 0 && Spaced(times, gap)
    ensures CountWithin(times, a, a + d) <= d / gap + 1
  {
    CountReaches(times, a, a + d, gap);
    if CountWithin(times, a, a + d) > 0 {
      QuotientBound(CountWithin(times, a, a + d) - 1, gap, d);
    }
  }
}