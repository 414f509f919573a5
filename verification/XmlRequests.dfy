/** XML-RPC requests as clients write them, with any text between the elements, and what is read of them. */
module XmlRequests {
  import opened Bytes
  import opened RequestMessage
  import opened XmlParser
  import XmlUnits
  import XmlRpc
  import XmlText

  const METHOD_CALL := Ascii("methodCall")
  const METHOD_NAME := Ascii("methodName")

  // ---------------------------------------------------------------- what is read

  /** The struct of a method call: the only parameter's value. None is the bad request exception. */
  function CallStruct(root: Node): Option<Node> {
    var params := ChildNamed(root.children, XmlRpc.PARAMS);
    if params.None? then None
    else
      var param := ChildNamed(params.value.children, XmlRpc.PARAM);
      if param.None? then None
      else
        var value := ChildNamed(param.value.children, XmlRpc.VALUE);
        if value.None? then None else ChildNamed(value.value.children, XmlRpc.STRUCT)
  }

  /** The data of a method call by name. */
  function CallData(raw: seq<byte>, root: Node): Option<map<seq<byte>, Node>> {
    if root.tag != METHOD_CALL || |root.children| != 2 || ChildNamed(root.children, METHOD_NAME).None? then None
    else if CallStruct(root).None? then None
    else XmlRpc.StructMembers(raw, CallStruct(root).value)
  }

  method ReadCall(raw: seq<byte>, root: TreeNode) returns (data: Option<map<seq<byte>, TreeNode>>)
    requires root.Valid()
    ensures data.None? <==> CallData(raw, root.view).None?
    ensures data.Some? ==>
              && data.value.Keys == CallData(raw, root.view).value.Keys
              && forall k <- data.value ::
                   data.value[k].Valid() && data.value[k].view == CallData(raw, root.view).value[k]
  {
    hide XmlRpc.StructMembers, ChildNamed, CallStruct;
    if root.tag != METHOD_CALL || |root.children| != 2 {
      return None;
    }
    var name := root.Child(METHOD_NAME);
    if name.None? {
      return None;
    }
    var st := FindStruct(root);
    if st.None? {
      return None;
    }
    data := XmlRpc.GetStructMembers(raw, st.value);
  }

  method FindStruct(root: TreeNode) returns (st: Option<TreeNode>)
    requires root.Valid()
    ensures st.None? <==> CallStruct(root.view).None?
    ensures st.Some? ==> st.value.Valid() && CallStruct(root.view) == Some(st.value.view)
  {
    hide ChildNamed;
    var params := root.Child(XmlRpc.PARAMS);
    if params.None? {
      return None;
    }
    var param := params.value.Child(XmlRpc.PARAM);
    if param.None? {
      return None;
    }
    var value := param.value.Child(XmlRpc.VALUE);
    if value.None? {
      return None;
    }
    st := value.value.Child(XmlRpc.STRUCT);
  }

  // ---------------------------------------------------------------- what is written

  /** Text between elements. */
  type Gap = s: seq<byte> | Free(s, LT)

  /** The text of a name or a string, in units. */
  type Words = us: XmlUnits.Units | Free(XmlUnits.Text(us), LT)

  /** A value: a string, or any other element that parses. */
  datatype Data = Str(words: Words) | Other(element: Element)

  datatype Item = Item(before: Gap, g1: Gap, name: Words, g2: Gap, g3: Gap, data: Data, g4: Gap, g5: Gap)

  predicate GoodItem(i: Item) {
    i.data.Other? ==> Good(i.data.element)
  }

  function DataElement(d: Data): Element {
    match d
    case Str(words) => Element(XmlRpc.STRING, Text(XmlUnits.Text(words)))
    case Other(element) => element
  }

  function NameElement(i: Item): Element {
    Element(XmlRpc.NAME, Text(XmlUnits.Text(i.name)))
  }

  /** An element within another, with text on both sides. */
  function Around(name: seq<byte>, g: Gap, e: Element, h: Gap): Element {
    Element(name, Child(g, e, Text(h)))
  }

  function ItemElement(i: Item): Element {
    Element(XmlRpc.MEMBER, Child(i.g1, NameElement(i),
                                 Child(i.g2, Around(XmlRpc.VALUE, i.g3, DataElement(i.data), i.g4), Text(i.g5))))
  }

  function Body(items: seq<Item>, last: Gap): Content {
    if items == [] then Text(last) else Child(items[0].before, ItemElement(items[0]), Body(items[1..], last))
  }

  /** The text between the elements around the struct. */
  datatype Gaps = Gaps(c1: Gap, c2: Gap, c3: Gap, p1: Gap, p2: Gap, q1: Gap, q2: Gap, v1: Gap, v2: Gap, last: Gap)

  function Struct(items: seq<Item>, gs: Gaps): Element {
    Element(XmlRpc.STRUCT, Body(items, gs.last))
  }

  function Params(items: seq<Item>, gs: Gaps): Element {
    Around(XmlRpc.PARAMS, gs.p1,
           Around(XmlRpc.PARAM, gs.q1, Around(XmlRpc.VALUE, gs.v1, Struct(items, gs), gs.v2), gs.q2), gs.p2)
  }

  function Call(called: Gap, items: seq<Item>, gs: Gaps): Element {
    Element(METHOD_CALL, Child(gs.c1, Element(METHOD_NAME, Text(called)),
                               Child(gs.c2, Params(items, gs), Text(gs.c3))))
  }

  // ---------------------------------------------------------------- reading what is written

  lemma {:induction false} BodyGood(items: seq<Item>, last: Gap)
    requires forall k :: 0 <= k < |items| ==> GoodItem(items[k])
    ensures GoodContent(Body(items, last))
    decreases |items|
  {
    hide ItemElement, GoodItem;
    if items != [] {
      BodyGood(items[1..], last);
      ItemGood(items[0]);
    }
  }

  lemma ItemGood(i: Item)
    requires GoodItem(i)
    ensures Good(ItemElement(i))
  {
    XmlRpc.GoodNames();
    WordsGood(XmlRpc.NAME, i.name);
    if i.data.Str? {
      WordsGood(XmlRpc.STRING, i.data.words);
    }
    hide GoodName, Free, XmlUnits.Text;
    assert Good(DataElement(i.data)) && Good(NameElement(i));
    assert Free(i.g1, LT) && Free(i.g2, LT) && Free(i.g5, LT);
    AroundGood(XmlRpc.VALUE, i.g3, DataElement(i.data), i.g4);
    hide Around;
    assert GoodContent(Child(i.g2, Around(XmlRpc.VALUE, i.g3, DataElement(i.data), i.g4), Text(i.g5)));
  }

  lemma WordsGood(name: seq<byte>, words: Words)
    requires GoodName(name)
    ensures Good(Element(name, Text(XmlUnits.Text(words))))
  {
    hide Free, XmlUnits.Text;
    assert Free(XmlUnits.Text(words), LT);
    assert GoodContent(Text(XmlUnits.Text(words)));
  }

  lemma AroundGood(name: seq<byte>, g: Gap, e: Element, h: Gap)
    requires GoodName(name) && Good(e)
    ensures Good(Around(name, g, e, h))
  {
    assert Free(g, LT) && Free(h, LT);
    assert GoodContent(Child(g, e, Text(h)));
  }

  lemma CallGood(called: Gap, items: seq<Item>, gs: Gaps)
    requires forall k :: 0 <= k < |items| ==> GoodItem(items[k])
    ensures Good(Call(called, items, gs)) && Call(called, items, gs).Element?
  {
    ParamsGood(items, gs);
    assert GoodName(METHOD_CALL) && GoodName(METHOD_NAME);
    assert Free(called, LT) && Free(gs.c1, LT) && Free(gs.c2, LT) && Free(gs.c3, LT);
    hide GoodName, GoodItem, Free, Params;
    assert Good(Element(METHOD_NAME, Text(called)));
    assert GoodContent(Child(gs.c2, Params(items, gs), Text(gs.c3)));
  }

  lemma ParamsGood(items: seq<Item>, gs: Gaps)
    requires forall k :: 0 <= k < |items| ==> GoodItem(items[k])
    ensures Good(Params(items, gs))
  {
    XmlRpc.GoodNames();
    BodyGood(items, gs.last);
    hide GoodName, Body, GoodItem, Free;
    assert Good(Struct(items, gs));
    hide Good, Around, Struct;
    AroundGood(XmlRpc.VALUE, gs.v1, Struct(items, gs), gs.v2);
    var value := Around(XmlRpc.VALUE, gs.v1, Struct(items, gs), gs.v2);
    AroundGood(XmlRpc.PARAM, gs.q1, value, gs.q2);
    AroundGood(XmlRpc.PARAMS, gs.p1, Around(XmlRpc.PARAM, gs.q1, value, gs.q2), gs.p2);
  }

  lemma AroundShows(raw: seq<byte>, node: Node, name: seq<byte>, g: Gap, e: Element, h: Gap)
    requires Shows(raw, node, Around(name, g, e, h))
    ensures node.tag == name && |node.children| == 1
    ensures ChildNamed(node.children, e.name) == Some(node.children[0]) && Shows(raw, node.children[0], e)
  {
    hide Shows, Free;
    XmlRpc.ElementShows(raw, node, Around(name, g, e, h));
    assert ShowAll(raw, node.children, Child(g, e, Text(h)));
    assert ShowAll(raw, node.children[1..], Text(h));
    XmlRpc.ShowsName(raw, node.children[0], e);
  }

  /** The value that is read of an item: a string is what its units stand for, anything else stays as it is shown. */
  ghost predicate IsData(raw: seq<byte>, node: Node, d: Data) {
    && Shows(raw, node, DataElement(d))
    && (d.Str? ==> XmlRpc.GetString(raw, node) == Some(XmlUnits.Meaning(d.words)))
  }

  lemma WordsMean(raw: seq<byte>, node: Node, name: seq<byte>, words: Words)
    requires Shows(raw, node, Element(name, Text(XmlUnits.Text(words))))
    requires name == XmlRpc.STRING || name == XmlRpc.NAME
    ensures node.tag == name && XmlRpc.GetString(raw, node) == Some(XmlUnits.Meaning(words))
  {
    XmlRpc.LeafShows(raw, node, name, XmlUnits.Text(words));
    XmlUnits.DecodesMeaning(XmlUnits.Text(words), XmlUnits.Meaning(words));
    hide Shows, XmlText.Decoded;
  }

  /** An item is read under what its name stands for. */
  lemma ItemRead(raw: seq<byte>, node: Node, i: Item)
    requires Shows(raw, node, ItemElement(i))
    ensures
      var m := XmlRpc.MemberOf(raw, node);
      m.Some? && m.value.0 == XmlUnits.Meaning(i.name) && IsData(raw, m.value.1, i.data)
  {
    hide Shows, XmlUnits.Text, XmlUnits.Meaning, Free, XmlText.Decoded, XmlRpc.GetString, ChildNamed;
    ItemParts(raw, node, i);
    var first, second := node.children[0], node.children[1];
    WordsMean(raw, first, XmlRpc.NAME, i.name);
    AroundShows(raw, second, XmlRpc.VALUE, i.g3, DataElement(i.data), i.g4);
    if i.data.Str? {
      WordsMean(raw, second.children[0], XmlRpc.STRING, i.data.words);
    }
    XmlRpc.TwoChildren(node.children);
  }

  lemma ItemParts(raw: seq<byte>, node: Node, i: Item)
    requires Shows(raw, node, ItemElement(i))
    ensures |node.children| == 2 && Shows(raw, node.children[0], NameElement(i))
    ensures Shows(raw, node.children[1], Around(XmlRpc.VALUE, i.g3, DataElement(i.data), i.g4))
  {
    hide Shows, NameElement, Around, Free;
    XmlRpc.ElementShows(raw, node, ItemElement(i));
    var rest := Child(i.g2, Around(XmlRpc.VALUE, i.g3, DataElement(i.data), i.g4), Text(i.g5));
    assert ShowAll(raw, node.children, Child(i.g1, NameElement(i), rest));
    assert ShowAll(raw, node.children[1..], rest);
    assert ShowAll(raw, node.children[1..][1..], Text(i.g5));
  }

  lemma {:induction false} BodyShows(raw: seq<byte>, children: seq<Node>, items: seq<Item>, last: Gap)
    requires ShowAll(raw, children, Body(items, last))
    ensures |children| == |items|
    ensures forall k :: 0 <= k < |items| ==> Shows(raw, children[k], ItemElement(items[k]))
    decreases |items|
  {
    hide Shows, ItemElement;
    if items != [] {
      BodyShows(raw, children[1..], items[1..], last);
      forall k | 0 <= k < |items|
        ensures Shows(raw, children[k], ItemElement(items[k]))
      {
        if k > 0 {
          assert children[1..][k - 1] == children[k] && items[1..][k - 1] == items[k];
        }
      }
    }
  }

  /** The names differ in what they stand for. */
  predicate DistinctNames(items: seq<Item>) {
    forall i, j :: 0 <= i < j < |items| ==> XmlUnits.Meaning(items[i].name) != XmlUnits.Meaning(items[j].name)
  }

  lemma {:induction false} ItemsRead(raw: seq<byte>, children: seq<Node>, items: seq<Item>)
    requires |children| == |items| && DistinctNames(items)
    requires forall i :: 0 <= i < |items| ==> Shows(raw, children[i], ItemElement(items[i]))
    ensures XmlRpc.MembersOf(raw, children).Some?
    ensures forall i :: 0 <= i < |items| ==>
              && XmlUnits.Meaning(items[i].name) in XmlRpc.MembersOf(raw, children).value
              && IsData(raw, XmlRpc.MembersOf(raw, children).value[XmlUnits.Meaning(items[i].name)], items[i].data)
    decreases |items|
  {
    hide Shows, ItemElement, IsData, XmlRpc.MemberOf, XmlUnits.Meaning;
    if items != [] {
      var n := |items| - 1;
      assert forall i :: 0 <= i < n ==> children[..n][i] == children[i] && items[..n][i] == items[i];
      ItemsRead(raw, children[..n], items[..n]);
      ItemRead(raw, children[n], items[n]);
      assert forall i :: 0 <= i < n ==> XmlUnits.Meaning(items[i].name) != XmlUnits.Meaning(items[n].name);
      hide DistinctNames;
      var before := XmlRpc.MembersOf(raw, children[..n]).value;
      var (name, node) := XmlRpc.MemberOf(raw, children[n]).value;
      assert XmlRpc.MembersOf(raw, children) == Some(before[name := node]);
      hide XmlRpc.MembersOf;
      forall i | 0 <= i < |items|
        ensures && XmlUnits.Meaning(items[i].name) in before[name := node]
                && IsData(raw, before[name := node][XmlUnits.Meaning(items[i].name)], items[i].data)
      {
        assert i < n ==> items[..n][i] == items[i];
      }
    }
  }

  /** From the root of a method call down to its struct. */
  lemma CallPath(raw: seq<byte>, root: Node, called: Gap, items: seq<Item>, gs: Gaps) returns (st: Node)
    requires Shows(raw, root, Call(called, items, gs))
    ensures root.tag == METHOD_CALL && |root.children| == 2 && ChildNamed(root.children, METHOD_NAME).Some?
    ensures CallStruct(root) == Some(st) && Shows(raw, st, Struct(items, gs))
  {
    hide Shows, Around, Struct, Free, ChildNamed;
    CallParts(raw, root, called, items, gs);
    var params := root.children[1];
    var value := Around(XmlRpc.VALUE, gs.v1, Struct(items, gs), gs.v2);
    var param := Around(XmlRpc.PARAM, gs.q1, value, gs.q2);
    assert value.name == XmlRpc.VALUE && param.name == XmlRpc.PARAM by { AroundNamed(XmlRpc.VALUE, gs, items); }
    AroundShows(raw, params, XmlRpc.PARAMS, gs.p1, param, gs.p2);
    AroundShows(raw, params.children[0], XmlRpc.PARAM, gs.q1, value, gs.q2);
    AroundShows(raw, params.children[0].children[0], XmlRpc.VALUE, gs.v1, Struct(items, gs), gs.v2);
    assert Struct(items, gs).name == XmlRpc.STRUCT by { StructNamed(items, gs); }
    st := params.children[0].children[0].children[0];
  }

  lemma AroundNamed(name: seq<byte>, gs: Gaps, items: seq<Item>)
    ensures forall n, g: Gap, e, h: Gap :: Around(n, g, e, h).name == n
  {
  }

  lemma StructNamed(items: seq<Item>, gs: Gaps)
    ensures Struct(items, gs).name == XmlRpc.STRUCT
  {
  }

  lemma CallParts(raw: seq<byte>, root: Node, called: Gap, items: seq<Item>, gs: Gaps)
    requires Shows(raw, root, Call(called, items, gs))
    ensures root.tag == METHOD_CALL && |root.children| == 2
    ensures ChildNamed(root.children, METHOD_NAME).Some?
    ensures ChildNamed(root.children, XmlRpc.PARAMS) == Some(root.children[1])
    ensures Shows(raw, root.children[1], Params(items, gs))
  {
    hide Shows, Free, Params;
    XmlRpc.ElementShows(raw, root, Call(called, items, gs));
    var rest := Child(gs.c2, Params(items, gs), Text(gs.c3));
    assert ShowAll(raw, root.children, Child(gs.c1, Element(METHOD_NAME, Text(called)), rest));
    assert ShowAll(raw, root.children[1..], rest);
    assert ShowAll(raw, root.children[1..][1..], Text(gs.c3));
    XmlRpc.ShowsName(raw, root.children[0], Element(METHOD_NAME, Text(called)));
    XmlRpc.ShowsName(raw, root.children[1], Params(items, gs));
    assert Params(items, gs).name == XmlRpc.PARAMS by { ParamsNamed(items, gs); }
    assert METHOD_NAME[0] != XmlRpc.PARAMS[0];
    assert root.children == [root.children[0]] + [root.children[1]];
    assert root.children[1..] == [root.children[1]];
  }

  lemma ParamsNamed(items: seq<Item>, gs: Gaps)
    ensures Params(items, gs).name == XmlRpc.PARAMS
  {
  }

  /**
   * Of a method call written with any text between its elements every item is read under what its name stands for:
   * strings with all entities and numbers decoded.
   */
  lemma RequestRead(declaration: seq<byte>, space: seq<byte>, called: Gap, items: seq<Item>, gs: Gaps,
                    behind: seq<byte>, i: nat)
    requires Free(declaration, GT) && Free(space, LT)
    requires (forall k :: 0 <= k < |items| ==> GoodItem(items[k])) && DistinctNames(items) && i < |items|
    ensures
      var raw := Message(declaration, space, Call(called, items, gs), behind);
      && ParseRoot(raw).Some?
      && var data := CallData(raw, ParseRoot(raw).value);
         && data.Some? && XmlUnits.Meaning(items[i].name) in data.value
         && IsData(raw, data.value[XmlUnits.Meaning(items[i].name)], items[i].data)
  {
    hide ParseRoot, Message, Shows, Call, Body, XmlRpc.MembersOf, XmlUnits.Meaning, IsData, GoodItem, Good,
         ChildNamed, CallStruct, DistinctNames, ItemElement;
    var raw := Message(declaration, space, Call(called, items, gs), behind);
    CallGood(called, items, gs);
    MessageShows(declaration, space, Call(called, items, gs), behind);
    var st := CallPath(raw, ParseRoot(raw).value, called, items, gs);
    XmlRpc.ElementShows(raw, st, Struct(items, gs));
    BodyShows(raw, st.children, items, gs.last);
    ItemsRead(raw, st.children, items);
  }
}
