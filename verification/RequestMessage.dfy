/** Nodes of a parsed message: spans of one raw string in a tree. */
module RequestMessage {
  import opened Bytes
  import opened Decimal

  /** A parsed node: tag, span in the raw string, children. */
  datatype Node = Node(tag: seq<byte>, offset: nat, len: nat, children: seq<Node>)

  const INT_MAX: int := 0x7FFF_FFFF

  /** The text a node spans; None when it starts behind the end of the message. */
  function RawContent(raw: seq<byte>, node: Node): Option<seq<byte>> {
    if node.offset > |raw| then None
    else Some(raw[node.offset..if node.offset + node.len <= |raw| then node.offset + node.len else |raw|])
  }

  /** The first child with a tag; None is the bad request exception. */
  function ChildNamed(children: seq<Node>, tag: seq<byte>): (r: Option<Node>)
    ensures r.Some? <==> exists i :: 0 <= i < |children| && children[i].tag == tag
    ensures r.Some? ==> exists i :: 0 <= i < |children| && children[i] == r.value && r.value.tag == tag
                                    && forall j :: 0 <= j < i ==> children[j].tag != tag
  {
    if children == [] then None
    else if children[0].tag == tag then Some(children[0])
    else
      var r := ChildNamed(children[1..], tag);
      assert forall i :: 0 <= i < |children[1..]| ==> children[1..][i] == children[i + 1];
      r
  }

  /** The last child with each tag, as assigning the children to a map in order leaves it. */
  function LastByTag(children: seq<Node>): map<seq<byte>, Node> {
    if children == [] then map[]
    else LastByTag(children[..|children| - 1])[children[|children| - 1].tag := children[|children| - 1]]
  }

  /** Conversion of a 64-bit signed integer to 32 bits. */
  function Truncated(v: int): int {
    (v + 0x8000_0000) % 0x1_0000_0000 - 0x8000_0000
  }

  /** An integer read from text: at most the largest, but the low bits of one below the smallest. */
  function IntOf(text: seq<byte>): int {
    if Atoll(text) > INT_MAX then INT_MAX else Truncated(Atoll(text))
  }

  /** A written integer is read back exactly when it is within 32 bits. */
  lemma IntRoundTrip(n: int)
    ensures IntOf(Itos(n)) == n <==> -INT_MAX - 1 <= n <= INT_MAX
  {
    ItosRoundTrip(n);
  }

  /** Beyond that, the largest is read for one above, and the low 32 bits for one below. */
  lemma IntOutside(n: int)
    ensures n > INT_MAX ==> IntOf(Itos(n)) == INT_MAX
    ensures n < -INT_MAX - 1 ==>
              && -INT_MAX - 1 <= IntOf(Itos(n)) <= INT_MAX
              && exists k: int :: IntOf(Itos(n)) == n + k * 0x1_0000_0000
  {
    ItosRoundTrip(n);
    if n < -INT_MAX - 1 {
      var k := -((n + 0x8000_0000) / 0x1_0000_0000);
      assert IntOf(Itos(n)) == n + k * 0x1_0000_0000;
    }
  }

  class TreeNode {
    var tag: seq<byte>
    var offset: nat
    var len: nat
    var children: seq<TreeNode>
    ghost var view: Node
    ghost var Repr: set<object>

    /** The node and what lies below it are the tree `view`. */
    ghost predicate Valid()
      reads this, Repr
      decreases Repr
    {
      && this in Repr
      && view.tag == tag && view.offset == offset && view.len == len && |view.children| == |children|
      && forall i :: 0 <= i < |children| ==>
           && children[i] in Repr && children[i].Repr < Repr && this !in children[i].Repr
           && children[i].Valid() && children[i].view == view.children[i]
    }

    constructor (t: seq<byte>, at: nat)
      ensures Valid() && fresh(Repr) && Repr == {this} && view == Node(t, at, 0, []) && children == []
    {
      tag, offset, len, children := t, at, 0, [];
      view, Repr := Node(t, at, 0, []), {this};
    }

    method SetLen(n: nat)
      requires Valid()
      modifies this`len, this`view
      ensures Valid() && view == old(view).(len := n)
    {
      len := n;
      view := view.(len := n);
    }

    method SetOffset(n: nat)
      requires Valid()
      modifies this`offset, this`view
      ensures Valid() && view == old(view).(offset := n)
    {
      offset := n;
      view := view.(offset := n);
    }

    method SetTag(t: seq<byte>)
      requires Valid()
      modifies this`tag, this`view
      ensures Valid() && view == old(view).(tag := t)
    {
      tag := t;
      view := view.(tag := t);
    }

    method AddChild(node: TreeNode)
      requires Valid() && node.Valid() && this !in node.Repr
      modifies this`children, this`view, this`Repr
      ensures Valid() && view == old(view).(children := old(view).children + [node.view])
      ensures Repr == old(Repr) + node.Repr
    {
      children := children + [node];
      view := view.(children := view.children + [node.view]);
      Repr := Repr + node.Repr;
    }

    /** The first child with a tag. */
    method Child(stag: seq<byte>) returns (r: Option<TreeNode>)
      requires Valid()
      ensures r.None? <==> ChildNamed(view.children, stag).None?
      ensures r.Some? ==>
                && r.value in children && r.value.Valid()
                && Some(r.value.view) == ChildNamed(view.children, stag)
    {
      for i := 0 to |children|
        invariant ChildNamed(view.children, stag) == ChildNamed(view.children[i..], stag)
      {
        assert view.children[i..][1..] == view.children[i + 1..];
        if children[i].tag == stag {
          return Some(children[i]);
        }
      }
      return None;
    }

    /** The children by tag; of two with the same tag the later one. */
    method Members() returns (ret: map<seq<byte>, TreeNode>)
      requires Valid()
      ensures ret.Keys == LastByTag(view.children).Keys
      ensures forall t <- ret :: ret[t].Valid() && ret[t].view == LastByTag(view.children)[t]
    {
      ret := map[];
      for i := 0 to |children|
        invariant ret.Keys == LastByTag(view.children[..i]).Keys
        invariant forall t <- ret ::
                    && ret[t] in children && ret[t].Valid()
                    && ret[t].view == LastByTag(view.children[..i])[t]
      {
        ret := ret[children[i].tag := children[i]];
        assert view.children[..i + 1][..i] == view.children[..i];
      }
      assert view.children[..|children|] == view.children;
    }
  }

  /** With distinct tags the map holds every child under its tag. */
  lemma {:induction false} DistinctMembers(children: seq<Node>)
    requires forall i, j :: 0 <= i < j < |children| ==> children[i].tag != children[j].tag
    ensures forall i :: 0 <= i < |children| ==>
              children[i].tag in LastByTag(children) && LastByTag(children)[children[i].tag] == children[i]
  {
    if children != [] {
      var n := |children| - 1;
      DistinctMembers(children[..n]);
      forall i | 0 <= i < n
        ensures children[i].tag in LastByTag(children) && LastByTag(children)[children[i].tag] == children[i]
      {
        assert children[..n][i] == children[i];
      }
    }
  }
}
