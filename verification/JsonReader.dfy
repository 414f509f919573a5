/** The JSON parser as it runs: an offset advancing through the message, nodes completed step by step. */
module JsonReader {
  import opened Bytes
  import opened RequestMessage
  import JsonParser
  import JsonStrings

  class Json {
    const raw: seq<byte>

    constructor (rawdata: seq<byte>)
      ensures raw == rawdata
    {
      raw := rawdata;
    }

    /** The next position that is not white space; None when the message ends first. */
    method IgnoreWhiteSpaces(start: nat) returns (r: Option<nat>)
      ensures r == JsonParser.SkipSpace(raw, start)
    {
      var limit := |raw|;
      var offset := start;
      while offset < limit && JsonParser.IsWhiteSpace(raw[offset])
        invariant offset <= limit || offset == start
        invariant JsonParser.SkipSpace(raw, start) == JsonParser.SkipSpace(raw, offset)
      {
        offset := offset + 1;
      }
      if offset >= limit {
        return None;
      }
      return Some(offset);
    }

    /** The node is completed and the offset behind it returned, as the grammar says, or parsing fails. */
    ghost predicate Completed(node: TreeNode, expected: JsonParser.Parsed, r: Option<nat>)
      reads node, node.Repr
    {
      match expected
      case None => r.None?
      case Some((view, end)) => r == Some(end) && node.Valid() && node.view == view
    }

    method ProcessStringNode(node: TreeNode) returns (r: Option<nat>)
      requires node.Valid() && node.Repr == {node} && node.children == []
      requires node.offset < |raw| && node.tag == JsonParser.STRING && node.len == 0
      modifies node
      ensures Completed(node, JsonParser.ParseString(raw, old(node.offset)), r) && node.Repr == {node}
    {
      var length := |raw|;
      node.SetOffset(node.offset + 1);
      var offset := node.offset;
      while offset < length
        invariant offset <= length + 4
        invariant JsonParser.ScanString(raw, old(node.offset) + 1) == JsonParser.ScanString(raw, offset)
        invariant node.Valid() && node.Repr == {node}
        invariant node.view == Node(JsonParser.STRING, old(node.offset) + 1, 0, [])
        decreases length + 4 - offset
      {
        var c := raw[offset];
        if c == JsonParser.BACKSLASH {
          if offset + 1 >= length {
            return None;
          }
          offset := offset + 1;
          if raw[offset] == JsonStrings.LOWER_U && offset + 4 < length {
            offset := offset + 4;
          }
        } else if c == JsonParser.QUOTE {
          node.SetLen(offset - node.offset);
          return Some(offset + 1);
        }
        offset := offset + 1;
      }
      return None;
    }

    method ProcessNumber(node: TreeNode) returns (end: nat)
      requires node.Valid() && node.Repr == {node} && node.children == []
      requires node.offset < |raw| && !JsonParser.EndsNumber(raw[node.offset])
      modifies node
      ensures node.Valid() && node.Repr == {node} && end == JsonParser.ScanNumber(raw, old(node.offset) + 1)
      ensures node.view == old(node.view).(tag := JsonParser.NUMBER, len := end - old(node.offset))
    {
      node.SetTag(JsonParser.NUMBER);
      var limit := |raw|;
      end := node.offset;
      while end < limit
        invariant node.offset <= end <= limit
        invariant JsonParser.ScanNumber(raw, node.offset) == JsonParser.ScanNumber(raw, end)
        invariant node.Valid() && node.Repr == {node} && node.view == old(node.view).(tag := JsonParser.NUMBER)
      {
        var c := raw[end];
        if JsonParser.EndsNumber(c) {
          break;
        }
        end := end + 1;
      }
      node.SetLen(end - node.offset);
    }

    method ProcessNode(node: TreeNode) returns (r: Option<nat>)
      requires node.Valid() && node.Repr == {node} && node.children == [] && node.len == 0
      requires node.offset < |raw|
      modifies node
      ensures Completed(node, JsonParser.ParseNode(raw, old(node.offset)), r) && fresh(node.Repr - {node})
      decreases |raw| - node.offset, 0
    {
      hide JsonParser.ParseObject, JsonParser.ParseArray, JsonParser.ScanNumber, JsonParser.ScanString;
      var offset := node.offset;
      var c := raw[offset];
      if c == JsonParser.OPEN_BRACE {
        node.SetTag(JsonParser.OBJECT);
        r := ProcessObjectNode(node);
      } else if c == JsonParser.OPEN_BRACKET {
        node.SetTag(JsonParser.ARRAY);
        r := ProcessArrayNode(node);
      } else if c == JsonParser.QUOTE {
        node.SetTag(JsonParser.STRING);
        r := ProcessStringNode(node);
      } else if c == 0x2D || JsonParser.IsDigit(c) {
        var end := ProcessNumber(node);
        r := Some(end);
      } else if At(raw, offset, JsonParser.TRUE_TEXT) {
        node.SetTag(JsonParser.BOOLEAN);
        node.SetLen(4);
        r := Some(offset + 4);
      } else if At(raw, offset, JsonParser.FALSE_TEXT) {
        node.SetTag(JsonParser.BOOLEAN);
        node.SetLen(5);
        r := Some(offset + 5);
      } else if At(raw, offset, JsonParser.NULL_TEXT) {
        node.SetTag(JsonParser.NULL);
        node.SetLen(4);
        r := Some(offset + 4);
      } else {
        r := None;
      }
    }

    method ProcessObjectNode(node: TreeNode) returns (r: Option<nat>)
      requires node.Valid() && node.Repr == {node} && node.children == [] && node.len == 0
      requires node.offset < |raw| && node.tag == JsonParser.OBJECT
      modifies node
      ensures Completed(node, JsonParser.ParseObject(raw, old(node.offset), old(node.offset) + 1, []), r)
      ensures fresh(node.Repr - {node})
      decreases |raw| - node.offset - 1, 2
    {
      hide JsonParser.ParseNode, JsonParser.SkipSpace, JsonParser.ParseMember;
      ghost var start := node.offset;
      var length := |raw|;
      var offset := node.offset + 1;
      while offset < length
        invariant offset > start && node.Valid() && fresh(node.Repr - {node})
        invariant node.view == Node(JsonParser.OBJECT, start, 0, node.view.children)
        invariant JsonParser.ParseObject(raw, start, start + 1, [])
               == JsonParser.ParseObject(raw, start, offset, node.view.children)
        decreases length - offset
      {
        var at := IgnoreWhiteSpaces(offset);
        if at.None? {
          return None;
        }
        var c := raw[at.value];
        if c == JsonParser.CLOSE_BRACE {
          node.SetLen(at.value - node.offset);
          return Some(at.value + 1);
        } else if c == JsonParser.QUOTE {
          var child, end := ProcessMember(at.value);
          if end.None? {
            return None;
          }
          node.AddChild(child);
          var next := IgnoreWhiteSpaces(end.value);
          if next.None? {
            return None;
          }
          offset := next.value;
          if raw[offset] == JsonParser.COMMA {
            offset := offset + 1;
          } else if raw[offset] != JsonParser.CLOSE_BRACE {
            return None;
          }
        } else {
          return None;
        }
      }
      assert JsonParser.SkipSpace(raw, offset).None? by { SpaceEnds(raw, offset); }
      return None;
    }

    /** A member of an object: its name, then its value in a node tagged with the name. */
    method ProcessMember(at: nat) returns (value: TreeNode, r: Option<nat>)
      requires at < |raw| && raw[at] == JsonParser.QUOTE
      ensures Completed(value, JsonParser.ParseMember(raw, at), r) && fresh(value) && fresh(value.Repr)
      decreases |raw| - at, 1
    {
      hide JsonParser.ParseNode, JsonParser.SkipSpace, JsonParser.ScanString, JsonStrings.Decoded;
      var name := new TreeNode(JsonParser.STRING, at);
      value := new TreeNode(Ascii("value"), at);
      var end := ProcessStringNode(name);
      if end.None? {
        return value, None;
      }
      var colon := IgnoreWhiteSpaces(end.value);
      if colon.None? || raw[colon.value] != JsonParser.COLON {
        return value, None;
      }
      var start := IgnoreWhiteSpaces(colon.value + 1);
      if start.None? {
        return value, None;
      }
      value := new TreeNode(Ascii("value"), start.value);
      r := ProcessNode(value);
      if r.None? {
        return;
      }
      var text := JsonStrings.DecodeJsonString(raw, name.offset, name.len);
      if text.None? {
        return value, None;
      }
      value.SetTag(text.value);
    }

    method ProcessArrayNode(node: TreeNode) returns (r: Option<nat>)
      requires node.Valid() && node.Repr == {node} && node.children == [] && node.len == 0
      requires node.offset < |raw| && node.tag == JsonParser.ARRAY
      modifies node
      ensures Completed(node, JsonParser.ParseArray(raw, old(node.offset), old(node.offset) + 1, []), r)
      ensures fresh(node.Repr - {node})
      decreases |raw| - node.offset - 1, 2
    {
      hide JsonParser.ParseNode, JsonParser.SkipSpace;
      ghost var start := node.offset;
      var length := |raw|;
      var offset := node.offset + 1;
      while offset < length
        invariant offset > start && node.Valid() && fresh(node.Repr - {node})
        invariant node.view == Node(JsonParser.ARRAY, start, 0, node.view.children)
        invariant JsonParser.ParseArray(raw, start, start + 1, [])
               == JsonParser.ParseArray(raw, start, offset, node.view.children)
        decreases length - offset
      {
        var at := IgnoreWhiteSpaces(offset);
        if at.None? {
          return None;
        }
        var c := raw[at.value];
        if c == JsonParser.CLOSE_BRACKET {
          node.SetLen(at.value - node.offset);
          return Some(at.value + 1);
        }
        var child := new TreeNode(Ascii("node"), at.value);
        var end := ProcessNode(child);
        if end.None? {
          return None;
        }
        node.AddChild(child);
        var next := IgnoreWhiteSpaces(end.value);
        if next.None? {
          return None;
        }
        offset := next.value;
        if raw[offset] == JsonParser.COMMA {
          offset := offset + 1;
        } else if raw[offset] != JsonParser.CLOSE_BRACKET {
          return None;
        }
      }
      assert JsonParser.SkipSpace(raw, offset).None? by { SpaceEnds(raw, offset); }
      return None;
    }

    /** The root node of the message. */
    method ProcessRawData() returns (root: Option<TreeNode>)
      ensures root.None? <==> JsonParser.ParseRoot(raw).None?
      ensures root.Some? ==>
                && fresh(root.value.Repr) && root.value.Valid()
                && Some(root.value.view) == JsonParser.ParseRoot(raw)
    {
      hide JsonParser.ParseNode, JsonParser.SkipSpace;
      var offset := IgnoreWhiteSpaces(0);
      if offset.None? {
        return None;
      }
      var newroot := new TreeNode(Ascii("root"), offset.value);
      var end := ProcessNode(newroot);
      if end.None? {
        return None;
      }
      return Some(newroot);
    }
  }

  lemma SpaceEnds(raw: seq<byte>, offset: nat)
    requires offset >= |raw|
    ensures JsonParser.SkipSpace(raw, offset).None?
  {
  }
}
