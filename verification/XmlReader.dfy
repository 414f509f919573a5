/** The XML parser as it runs: an offset advancing from tag to tag, nodes completed at their end tags. */
module XmlReader {
  import opened Bytes
  import opened RequestMessage
  import XmlParser

  class Xml {
    const raw: seq<byte>

    constructor (rawdata: seq<byte>)
      ensures raw == rawdata
    {
      raw := rawdata;
    }

    /** The next tag from an offset on. */
    method NextTag(start: nat) returns (r: XmlParser.Search)
      requires start <= |raw|
      ensures r == XmlParser.NextTag(raw, start)
    {
      var offset := start;
      while offset < |raw|
        invariant start <= offset <= |raw|
        invariant XmlParser.Find(raw, XmlParser.LT, start) == XmlParser.Find(raw, XmlParser.LT, offset)
      {
        if raw[offset] == XmlParser.LT {
          var btag := offset;
          while offset < |raw|
            invariant btag <= offset <= |raw|
            invariant XmlParser.Find(raw, XmlParser.GT, btag) == XmlParser.Find(raw, XmlParser.GT, offset)
          {
            if raw[offset] == XmlParser.GT {
              return XmlParser.Tag(raw[btag + 1..offset], btag, offset);
            }
            offset := offset + 1;
          }
          return XmlParser.CutTag;
        }
        offset := offset + 1;
      }
      return XmlParser.NoTag;
    }

    /** The node is completed and the offset behind it returned, as the grammar says, or parsing fails. */
    ghost predicate Completed(node: TreeNode, expected: XmlParser.Parsed, r: Option<nat>)
      reads node, node.Repr
    {
      match expected
      case None => r.None?
      case Some((view, end)) => r == Some(end) && node.Valid() && node.view == view
    }

    method ProcessNode(node: TreeNode) returns (r: Option<nat>)
      requires node.Valid() && node.Repr == {node} && node.children == [] && node.len == 0
      requires node.offset <= |raw|
      modifies node
      ensures Completed(node, XmlParser.ParseContent(raw, old(node.tag), old(node.offset), old(node.offset), []), r)
      ensures fresh(node.Repr - {node})
      decreases |raw| - node.offset, 0
    {
      hide XmlParser.NextTag, XmlParser.ParseContent;
      var offset := node.offset;
      ghost var start, name := node.offset, node.tag;
      var ntag := NextTag(offset);
      while ntag.Tag?
        invariant start <= offset <= |raw| && ntag == XmlParser.NextTag(raw, offset)
        invariant node.Valid() && fresh(node.Repr - {node})
        invariant node.view == Node(name, start, 0, node.view.children)
        invariant XmlParser.ParseContent(raw, name, start, start, [])
               == XmlParser.ParseContent(raw, name, start, offset, node.view.children)
        decreases |raw| - offset
      {
        var text := ntag.text;
        var l := |text|;
        if l == 0 {
          XmlParser.BadTurn(raw, name, start, offset, node.view.children);
          return None;
        }
        XmlParser.Turn(raw, name, start, offset, node.view.children, text, ntag.start, ntag.end);
        if text[0] == XmlParser.SLASH {
          if node.tag == text[1..] {
            node.SetLen(ntag.start - node.offset);
            return Some(ntag.end + 1);
          }
          XmlParser.BadTurn(raw, name, start, offset, node.view.children);
          return None;
        } else if text[l - 1] == XmlParser.SLASH {
          var child := new TreeNode(text[..l - 1], ntag.end + 1);
          node.AddChild(child);
          offset := ntag.end + 1;
        } else {
          ghost var before := node.view.children;
          var behind := ProcessChild(node, text, ntag.end + 1);
          if behind.None? {
            XmlParser.BadTurn(raw, name, start, offset, before);
            return None;
          }
          offset := behind.value;
        }
        ntag := NextTag(offset);
      }
      XmlParser.BadTurn(raw, name, start, offset, node.view.children);
      return None;
    }

    /** A child is completed and added to the node. (The source adds it first; nothing looks at it in between.) */
    method ProcessChild(node: TreeNode, text: seq<byte>, at: nat) returns (r: Option<nat>)
      requires node.Valid() && at <= |raw|
      modifies node
      ensures var expected := XmlParser.ParseContent(raw, text, at, at, []);
              match expected
              case None => r.None?
              case Some((view, end)) =>
                && r == Some(end) && node.Valid()
                && node.view == old(node.view).(children := old(node.view).children + [view])
      ensures fresh(node.Repr - old(node.Repr))
      decreases |raw| - at, 1
    {
      hide XmlParser.ParseContent;
      var child := new TreeNode(text, at);
      r := ProcessNode(child);
      if r.Some? {
        node.AddChild(child);
      }
    }

    /** The root node of the message: that of its second tag. */
    method ProcessRawData() returns (root: Option<TreeNode>)
      ensures root.None? <==> XmlParser.ParseRoot(raw).None?
      ensures root.Some? ==>
                && fresh(root.value.Repr) && root.value.Valid()
                && Some(root.value.view) == XmlParser.ParseRoot(raw)
    {
      hide XmlParser.NextTag, XmlParser.ParseContent;
      var first := NextTag(0);
      if !first.Tag? {
        return None;
      }
      var second := NextTag(first.end + 1);
      if !second.Tag? {
        return None;
      }
      var newroot := new TreeNode(second.text, second.end + 1);
      var end := ProcessNode(newroot);
      if end.None? {
        return None;
      }
      return Some(newroot);
    }
  }
}
