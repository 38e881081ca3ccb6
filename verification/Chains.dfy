/** A snake's body: a chain of nodes, each knowing where it is and where it was before its last step. */
module Chains {

  datatype Pos = Pos(x: int, y: int)

  type Direction = c: char | c == '^' || c == 'v' || c == '<' || c == '>' witness '^'

  /** The cell one step away. The arena's y axis points down. */
  function Step(p: Pos, d: Direction): Pos {
    match d
    case '^' => Pos(p.x, p.y - 1)
    case 'v' => Pos(p.x, p.y + 1)
    case '<' => Pos(p.x - 1, p.y)
    case _ => Pos(p.x + 1, p.y)
  }

  function Opposite(d: Direction): Direction {
    match d
    case '^' => 'v'
    case 'v' => '^'
    case '<' => '>'
    case _ => '<'
  }

  datatype Node = Node(pos: Pos, prev: Pos)

  type Chain = c: seq<Node> | |c| > 0 witness [Node(Pos(0, 0), Pos(0, 0))]

  /** A new snake: one node that has not moved. */
  function Spawn(p: Pos): Chain {
    [Node(p, p)]
  }

  /** The head goes to p and every other node to where the one before it was. */
  function MoveTo(c: Chain, p: Pos): (r: Chain)
    ensures |r| == |c|
  {
    [Node(p, c[0].pos)] + if |c| == 1 then [] else MoveTo(c[1..], c[0].pos)
  }

  function Move(c: Chain, d: Direction): Chain {
    MoveTo(c, Step(c[0].pos, d))
  }

  /** A new last node where the last node was before its last step. */
  function Grow(c: Chain): (r: Chain)
    ensures |r| == |c| + 1
  {
    if |c| == 1 then c + Spawn(c[0].prev) else [c[0]] + Grow(c[1..])
  }

  function Positions(c: seq<Node>): (r: seq<Pos>)
    ensures |r| == |c|
    ensures forall i :: 0 <= i < |c| ==> r[i] == c[i].pos
  {
    if c == [] then [] else [c[0].pos] + Positions(c[1..])
  }

  /** The body proper: every segment but the head. */
  function Body(c: Chain): (r: seq<Pos>)
    ensures |r| == |c| - 1
  {
    Positions(c)[1..]
  }

  lemma {:induction false} MoveToAt(c: Chain, p: Pos)
    ensures MoveTo(c, p)[0] == Node(p, c[0].pos)
    ensures forall i :: 1 <= i < |c| ==> MoveTo(c, p)[i] == Node(c[i - 1].pos, c[i].pos)
  {
    if |c| > 1 {
      MoveToAt(c[1..], c[0].pos);
      forall i | 1 <= i < |c| ensures MoveTo(c, p)[i] == Node(c[i - 1].pos, c[i].pos) {
        assert MoveTo(c, p)[i] == MoveTo(c[1..], c[0].pos)[i - 1];
        if i > 1 { assert c[1..][i - 2] == c[i - 1]; }
      }
    }
  }

  lemma {:induction false} GrowAt(c: Chain)
    ensures Grow(c) == c + Spawn(c[|c| - 1].prev)
  {
    if |c| > 1 {
      GrowAt(c[1..]);
      assert c[1..][|c| - 2] == c[|c| - 1];
      assert c == [c[0]] + c[1..];
    }
  }
}

/** The same chain as owned, linked nodes that are updated in place. */
module PlayerNodes {
  import opened Chains

  class PlayerNode {
    var xPos: int
    var yPos: int
    var prevX: int
    var prevY: int
    var next: PlayerNode?

    ghost var Contents: seq<Node>
    ghost var Repr: set<PlayerNode>

    ghost predicate Valid()
      reads this, Repr
      ensures Valid() ==> this in Repr && |Contents| > 0
      decreases Repr
    {
      && this in Repr
      && |Contents| > 0
      && Contents[0] == Node(Pos(xPos, yPos), Pos(prevX, prevY))
      && (next == null ==> |Contents| == 1 && Repr == {this})
      && (next != null ==>
            && next in Repr && Repr == {this} + next.Repr && this !in next.Repr
            && next.Valid() && Contents[1..] == next.Contents)
    }

    constructor (x: int, y: int)
      ensures Valid() && fresh(Repr) && Contents == Spawn(Pos(x, y))
    {
      xPos, yPos, prevX, prevY := x, y, x, y;
      next := null;
      Contents := Spawn(Pos(x, y));
      Repr := {this};
    }

    method Move(xMove: int, yMove: int)
      requires Valid()
      modifies Repr
      ensures Valid() && Repr == old(Repr)
      ensures Contents == Chains.MoveTo(old(Contents), Pos(old(xPos) + xMove, old(yPos) + yMove))
    {
      MoveTo(xPos + xMove, yPos + yMove);
    }

    method MoveTo(xMove: int, yMove: int)
      requires Valid()
      modifies Repr
      ensures Valid() && Repr == old(Repr)
      ensures Contents == Chains.MoveTo(old(Contents), Pos(xMove, yMove))
      decreases Repr
    {
      prevX := xPos;
      prevY := yPos;
      xPos := xMove;
      yPos := yMove;
      if next != null {
        next.MoveTo(prevX, prevY);
        Contents := [Node(Pos(xPos, yPos), Pos(prevX, prevY))] + next.Contents;
      } else {
        Contents := [Node(Pos(xPos, yPos), Pos(prevX, prevY))];
      }
    }

    method Grow()
      requires Valid()
      modifies Repr
      ensures Valid() && old(Repr) <= Repr && fresh(Repr - old(Repr))
      ensures Contents == Chains.Grow(old(Contents))
      decreases Repr
    {
      if next == null {
        next := new PlayerNode(prevX, prevY);
      } else {
        next.Grow();
      }
      Contents := [Contents[0]] + next.Contents;
      Repr := {this} + next.Repr;
    }

    method GetSegments(segments: seq<Pos>) returns (r: seq<Pos>)
      requires Valid()
      ensures r == segments + Positions(Contents)
      decreases Repr
    {
      r := segments + [Pos(xPos, yPos)];
      if next != null {
        r := next.GetSegments(r);
      }
    }
  }
}
