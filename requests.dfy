/**
 * Building a request (pycps/request.py): the content fields the setters
 * store, the documents `set_documents` prepares, and the `cps:request`
 * envelope `get_xml_request` writes around them. A Python dict whose order
 * matters to the output is either given as its items in iteration order or
 * accompanied by that order as a parameter.
 */
module Requests {
  import opened Wrappers
  import opened Errors
  import opened Values
  import opened Xml
  import Text
  import Query
  import opened Dicts
  import opened Converters
  import opened Connections
  import Responses

  // ---------------------------------------------------------------------------
  // The envelope

  /** A value stored in the content table: one value, or a list of values each written as its own tag. */
  datatype Field = One(v: Scalar) | Many(items: seq<Scalar>)

  /** The envelope settings `wrap_xml_content` reads from the request and its connection. */
  datatype Envelope = Envelope(
    storage: string,
    requestId: Scalar,
    timestamp: Scalar,
    replyCharset: Option<string>,
    application: Option<string>,
    command: string,
    user: string,
    password: string,
    timeout: Scalar,
    typ: Option<string>)

  const Prolog: string := "<?xml version=\"1.0\" encoding=\"utf-8\"?>\n<cps:request xmlns:cps=\"www.clusterpoint.com\">\n"
  const RequestEnd: string := "</cps:request>\n"
  const EmptyContent: string := "<cps:content/>\n"

  /** An envelope element on a line of its own. */
  function EnvTag(name: string, value: string): string
  {
    "<cps:" + name + ">" + value + "</cps:" + name + ">\n"
  }

  /** A string setting counts only when it is present and non-empty. */
  predicate Given(s: Option<string>)
  {
    s.Some? && s.value != ""
  }

  /** The envelope elements in the order they are written, each with its text. */
  function EnvelopeElements(env: Envelope): seq<(string, string)>
  {
    [("storage", env.storage)] +
    OptElement(Truthy(env.requestId), "request_id", Str(env.requestId)) +
    OptElement(Given(env.application), "application", if env.application.Some? then env.application.value else "") +
    [("command", env.command), ("user", env.user), ("password", env.password)] +
    OptElement(Truthy(env.timeout), "timeout", Str(env.timeout)) +
    OptElement(Given(env.typ), "type", if env.typ.Some? then env.typ.value else "")
  }

  /** An element written only when its setting is given. */
  function OptElement(written: bool, tag: string, value: string): seq<(string, string)>
  {
    if written then [(tag, value)] else []
  }

  /** The content block: self-closed when there is no content. */
  function ContentBlock(content: string): string
  {
    if content == "" then EmptyContent else "<cps:content>\n" + content + "\n</cps:content>\n"
  }

  function ElementTexts(elements: seq<(string, string)>): seq<string>
  {
    seq(|elements|, i requires 0 <= i < |elements| => EnvTag(elements[i].0, elements[i].1))
  }

  /** What `wrap_xml_content(content)` returns. */
  function Wrap(env: Envelope, content: string): string
  {
    Prolog + Text.Concat(ElementTexts(EnvelopeElements(env))) + ContentBlock(content) + RequestEnd
  }

  /** Every element the envelope can hold, in the order the client writes them. */
  const CanonicalOrder: seq<string> :=
    ["storage", "request_id", "application", "command", "user", "password", "timeout", "type"]

  /** Whether the envelope carries the element: storage, command, user and password always, the others only when set. */
  predicate Present(env: Envelope, tag: string)
  {
    if tag == "request_id" then Truthy(env.requestId)
    else if tag == "application" then Given(env.application)
    else if tag == "timeout" then Truthy(env.timeout)
    else if tag == "type" then Given(env.typ)
    else tag in {"storage", "command", "user", "password"}
  }

  function PresentTags(env: Envelope, order: seq<string>): seq<string>
  {
    if |order| == 0 then []
    else (if Present(env, order[0]) then [order[0]] else []) + PresentTags(env, order[1..])
  }

  function TagsOf(elements: seq<(string, string)>): (r: seq<string>)
    ensures |r| == |elements|
  {
    if |elements| == 0 then [] else [elements[0].0] + TagsOf(elements[1..])
  }

  /**
   * The envelope's elements are exactly the present ones, in the fixed order
   * storage, request_id, application, command, user, password, timeout, type;
   * storage, command, user and password are always among them.
   */
  lemma {:induction false} EnvelopeOrder(env: Envelope)
    ensures TagsOf(EnvelopeElements(env)) == PresentTags(env, CanonicalOrder)
    ensures forall t <- ["storage", "command", "user", "password"] :: t in TagsOf(EnvelopeElements(env))
  {
    ElementTags(env);
    CanonicalTags(env);
  }

  /** The tag when the element is written, nothing otherwise. */
  function OptTag(written: bool, tag: string): seq<string>
  {
    if written then [tag] else []
  }

  lemma {:induction false} ElementTags(env: Envelope)
    ensures TagsOf(EnvelopeElements(env)) ==
      ["storage"] + OptTag(Truthy(env.requestId), "request_id") + OptTag(Given(env.application), "application") +
      ["command", "user", "password"] + OptTag(Truthy(env.timeout), "timeout") + OptTag(Given(env.typ), "type")
  {
    var sto := [("storage", env.storage)];
    var rid := OptElement(Truthy(env.requestId), "request_id", Str(env.requestId));
    var app := OptElement(Given(env.application), "application", if env.application.Some? then env.application.value else "");
    var cup := [("command", env.command), ("user", env.user), ("password", env.password)];
    var tmo := OptElement(Truthy(env.timeout), "timeout", Str(env.timeout));
    var typ := OptElement(Given(env.typ), "type", if env.typ.Some? then env.typ.value else "");
    TagsOfSplit(sto, rid, app, cup, tmo, typ);
    OptTagOf(Truthy(env.requestId), "request_id", Str(env.requestId));
    OptTagOf(Given(env.application), "application", if env.application.Some? then env.application.value else "");
    OptTagOf(Truthy(env.timeout), "timeout", Str(env.timeout));
    OptTagOf(Given(env.typ), "type", if env.typ.Some? then env.typ.value else "");
    FixedTagsOf(env);
  }

  lemma {:induction false} FixedTagsOf(env: Envelope)
    ensures TagsOf([("storage", env.storage)]) == ["storage"]
    ensures TagsOf([("command", env.command), ("user", env.user), ("password", env.password)]) == ["command", "user", "password"]
  {
    var cup := [("command", env.command), ("user", env.user), ("password", env.password)];
    assert cup[1..] == [("user", env.user), ("password", env.password)];
    assert cup[1..][1..] == [("password", env.password)];
    assert cup[1..][1..][1..] == [];
    assert TagsOf(cup[1..][1..]) == ["password"];
  }

  lemma {:induction false} TagsOfSplit(a: seq<(string, string)>, b: seq<(string, string)>, c: seq<(string, string)>,
                    d: seq<(string, string)>, e: seq<(string, string)>, f: seq<(string, string)>)
    ensures TagsOf(a + b + c + d + e + f) == TagsOf(a) + TagsOf(b) + TagsOf(c) + TagsOf(d) + TagsOf(e) + TagsOf(f)
  {
    TagsOfAppend(a + b + c + d + e, f);
    TagsOfAppend(a + b + c + d, e);
    TagsOfAppend(a + b + c, d);
    TagsOfAppend(a + b, c);
    TagsOfAppend(a, b);
  }

  lemma {:induction false} OptTagOf(written: bool, tag: string, value: string)
    ensures TagsOf(OptElement(written, tag, value)) == OptTag(written, tag)
  {
  }

  lemma {:induction false} CanonicalTags(env: Envelope)
    ensures PresentTags(env, CanonicalOrder) ==
      ["storage"] + OptTag(Truthy(env.requestId), "request_id") + OptTag(Given(env.application), "application") +
      ["command", "user", "password"] + OptTag(Truthy(env.timeout), "timeout") + OptTag(Given(env.typ), "type")
  {
    CanonicalParts();
    PresentTagsSplit(env, ["storage"], ["request_id"], ["application"], ["command", "user", "password"], ["timeout"], ["type"]);
    PresentSettings(env);
    PresentTagsOne(env, "storage");
    PresentTagsOne(env, "request_id");
    PresentTagsOne(env, "application");
    PresentTagsOne(env, "timeout");
    PresentTagsOne(env, "type");
    MandatoryTags(env);
  }

  lemma {:induction false} CanonicalParts()
    ensures CanonicalOrder == ["storage"] + ["request_id"] + ["application"] + ["command", "user", "password"] + ["timeout"] + ["type"]
  {
  }

  /** Which envelope elements are present, tag by tag. */
  lemma {:induction false} PresentSettings(env: Envelope)
    ensures Present(env, "storage")
    ensures Present(env, "request_id") == Truthy(env.requestId)
    ensures Present(env, "application") == Given(env.application)
    ensures Present(env, "timeout") == Truthy(env.timeout)
    ensures Present(env, "type") == Given(env.typ)
  {
  }

  lemma {:induction false} MandatoryTags(env: Envelope)
    ensures PresentTags(env, ["command", "user", "password"]) == ["command", "user", "password"]
  {
    PresentTagsAppend(env, ["command"], ["user", "password"]);
    PresentTagsAppend(env, ["user"], ["password"]);
    assert ["command", "user", "password"] == ["command"] + (["user"] + ["password"]);
    PresentTagsOne(env, "command");
    PresentTagsOne(env, "user");
    PresentTagsOne(env, "password");
  }

  lemma {:induction false} PresentTagsSplit(env: Envelope, a: seq<string>, b: seq<string>, c: seq<string>, d: seq<string>, e: seq<string>, f: seq<string>)
    ensures PresentTags(env, a + b + c + d + e + f) ==
      PresentTags(env, a) + PresentTags(env, b) + PresentTags(env, c) + PresentTags(env, d) + PresentTags(env, e) + PresentTags(env, f)
  {
    PresentTagsAppend(env, a + b + c + d + e, f);
    PresentTagsAppend(env, a + b + c + d, e);
    PresentTagsAppend(env, a + b + c, d);
    PresentTagsAppend(env, a + b, c);
    PresentTagsAppend(env, a, b);
  }

  lemma {:induction false} PresentTagsOne(env: Envelope, tag: string)
    ensures PresentTags(env, [tag]) == OptTag(Present(env, tag), tag)
  {
    assert [tag][1..] == [];
  }

  lemma {:induction false} PresentTagsAppend(env: Envelope, a: seq<string>, b: seq<string>)
    ensures PresentTags(env, a + b) == PresentTags(env, a) + PresentTags(env, b)
  {
    if |a| > 0 {
      assert (a + b)[1..] == a[1..] + b;
      PresentTagsAppend(env, a[1..], b);
    } else {
      assert a + b == b;
    }
  }

  lemma {:induction false} TagsOfAppend(a: seq<(string, string)>, b: seq<(string, string)>)
    ensures TagsOf(a + b) == TagsOf(a) + TagsOf(b)
  {
    if |a| > 0 {
      assert (a + b)[1..] == a[1..] + b;
      TagsOfAppend(a[1..], b);
    } else {
      assert a + b == b;
    }
  }

  /** The request always ends with the closing request tag, right after the content block, which is self-closed exactly when there is no content. */
  lemma {:induction false} EnvelopeEnd(env: Envelope, content: string)
    ensures Text.EndsWith(Wrap(env, content), ContentBlock(content) + RequestEnd)
    ensures Text.EndsWith(Wrap(env, content), EmptyContent + RequestEnd) <==> content == ""
    ensures Text.EndsWith(Wrap(env, content), RequestEnd)
  {
    var head := Prolog + Text.Concat(ElementTexts(EnvelopeElements(env)));
    EndsWithTails(head, ContentBlock(content), RequestEnd);
    if content != "" {
      FilledBlockEnd(head, content);
    }
  }

  /** A filled content block closes with `</cps:content>`, which a self-closed one cannot match. */
  lemma {:induction false} FilledBlockEnd(head: string, content: string)
    requires content != ""
    ensures !Text.EndsWith(head + ContentBlock(content) + RequestEnd, EmptyContent + RequestEnd)
  {
    var opening, closing := "<cps:content>\n", "</cps:content>\n";
    assert ContentBlock(content) == opening + content + ("\n" + closing);
    Regroup(head, opening, content, "\n", closing, RequestEnd);
    var tail := EmptyContent + RequestEnd;
    assert |closing + RequestEnd| == |tail| && (closing + RequestEnd)[1] != tail[1];
    EndsWithSameLength(head + opening + content + "\n", closing + RequestEnd, tail);
  }

  lemma {:induction false} Regroup(a: string, b: string, c: string, d: string, e: string, f: string)
    ensures a + (b + c + (d + e)) + f == (a + b + c + d) + (e + f)
  {
  }

  lemma {:induction false} EndsWithTails(a: string, b: string, c: string)
    ensures Text.EndsWith(a + b + c, b + c)
    ensures Text.EndsWith(a + b + c, c)
  {
    assert (a + b + c)[|a + b + c| - |b + c|..] == b + c;
    assert (a + b + c)[|a + b + c| - |c|..] == c;
  }

  lemma {:induction false} EndsWithSameLength(a: string, b: string, c: string)
    requires |b| == |c|
    ensures Text.EndsWith(a + b, c) <==> b == c
  {
    assert (a + b)[|a + b| - |c|..] == b;
  }

  /** The timestamp and the reply charset are stored but never written. */
  lemma {:induction false} EnvelopeIgnoresTimestampAndCharset(env: Envelope, content: string, timestamp: Scalar, charset: Option<string>)
    ensures Wrap(env.(timestamp := timestamp, replyCharset := charset), content) == Wrap(env, content)
  {
  }

  // ---------------------------------------------------------------------------
  // The content

  /** `'<{0}>{1}</{0}>'.format(key, item)`. */
  function Tagged(key: string, item: Scalar): string
  {
    "<" + key + ">" + Str(item) + "</" + key + ">"
  }

  /** The items a stored value writes: a single value counts as a one-item list. */
  function Items(value: Field): seq<Scalar>
  {
    if value.Many? then value.items else [value.v]
  }

  /** The pieces a stored value writes: one tag per truthy item. */
  function FieldPieces(key: string, value: Field): seq<string>
  {
    TruthyTagged(key, Items(value))
  }

  /** The truthy items, in order: each truthy item as often as it occurs, and no falsy one. */
  function TruthyItems(items: seq<Scalar>): (r: seq<Scalar>)
    ensures |r| <= |items|
    ensures forall x :: multiset(r)[x] == if Truthy(x) then multiset(items)[x] else 0
  {
    if |items| == 0 then []
    else
      var init := items[..|items| - 1];
      var last := items[|items| - 1];
      assert items == init + [last];
      TruthyItems(init) + (if Truthy(last) then [last] else [])
  }

  /** One tag per item, in order. */
  function TagAll(key: string, items: seq<Scalar>): (r: seq<string>)
    ensures |r| == |items|
    ensures forall i :: 0 <= i < |items| ==> r[i] == Tagged(key, items[i])
  {
    seq(|items|, i requires 0 <= i < |items| => Tagged(key, items[i]))
  }

  /**
   * `['<{0}>{1}</{0}>'.format(key, item) for item in value if item]`: the
   * truthy items, in order, each written as a tag.
   */
  function TruthyTagged(key: string, items: seq<Scalar>): (r: seq<string>)
    ensures r == TagAll(key, TruthyItems(items))
  {
    if |items| == 0 then []
    else
      var init := items[..|items| - 1];
      var last := items[|items| - 1];
      var r := TruthyTagged(key, init) + (if Truthy(last) then [Tagged(key, last)] else []);
      assert r == TagAll(key, TruthyItems(init) + (if Truthy(last) then [last] else []));
      r
  }

  /** Every piece comes from a truthy item, and every truthy item writes a piece. */
  lemma {:induction false} FieldPiecesMeaning(key: string, items: seq<Scalar>)
    ensures forall p <- TruthyTagged(key, items) :: exists item :: item in items && Truthy(item) && p == Tagged(key, item)
    ensures forall item <- items :: Truthy(item) ==> Tagged(key, item) in TruthyTagged(key, items)
  {
    if |items| > 0 {
      var init := items[..|items| - 1];
      var last := items[|items| - 1];
      FieldPiecesMeaning(key, init);
      var front := TruthyTagged(key, init);
      var r := TruthyTagged(key, items);
      assert r == front + (if Truthy(last) then [Tagged(key, last)] else []);
      forall p | p in r
        ensures exists item :: item in items && Truthy(item) && p == Tagged(key, item)
      {
        if p in front {
          var item :| item in init && Truthy(item) && p == Tagged(key, item);
          assert item in items;
        } else {
          assert last in items;
        }
      }
      forall item | item in items && Truthy(item)
        ensures Tagged(key, item) in r
      {
        if item in init {
          assert Tagged(key, item) in front;
        } else {
          assert item == last;
        }
      }
    }
  }

  /** The pieces of the flat content fields, visited in the dict's iteration order. */
  function FlatPieces(content: map<string, Field>, order: seq<string>): seq<string>
  {
    if |order| == 0 then []
    else FlatPieces(content, order[..|order| - 1]) + KeyPieces(content, order[|order| - 1])
  }

  /** The pieces of one key of the table; a key the table does not hold writes nothing. */
  function KeyPieces(content: map<string, Field>, key: string): seq<string>
  {
    if key in content then FieldPieces(key, content[key]) else []
  }

  /** A nested block: the key's opening tag, one tag per truthy sub-value, the key's closing tag; nothing for an empty block. */
  function NestedBlock(key: string, value: seq<(string, Scalar)>): seq<string>
  {
    if |value| == 0 then []
    else ["<" + key + ">"] + SubPieces(value) + ["</" + key + ">"]
  }

  function SubPieces(value: seq<(string, Scalar)>): seq<string>
  {
    if |value| == 0 then []
    else
      var (k, v) := value[|value| - 1];
      SubPieces(value[..|value| - 1]) + (if Truthy(v) then [Tagged(k, v)] else [])
  }

  function NestedPieces(nested: seq<(string, seq<(string, Scalar)>)>): seq<string>
  {
    if |nested| == 0 then []
    else NestedPieces(nested[..|nested| - 1]) + NestedBlock(nested[|nested| - 1].0, nested[|nested| - 1].1)
  }

  /** The content string: documents, then nested blocks, then flat fields, one piece per line. */
  function XmlContent(documents: seq<string>, nested: seq<(string, seq<(string, Scalar)>)>,
                      content: map<string, Field>, order: seq<string>): string
  {
    Text.Join(documents + NestedPieces(nested) + FlatPieces(content, order), "\n")
  }

  /** The documents come first: with documents and other pieces, the content starts with the documents' lines. */
  lemma {:induction false} DocumentsFirst(documents: seq<string>, nested: seq<(string, seq<(string, Scalar)>)>,
                       content: map<string, Field>, order: seq<string>)
    requires |documents| > 0 && |NestedPieces(nested) + FlatPieces(content, order)| > 0
    ensures XmlContent(documents, nested, content, order) ==
      Text.Join(documents, "\n") + "\n" + Text.Join(NestedPieces(nested) + FlatPieces(content, order), "\n")
  {
    var rest := NestedPieces(nested) + FlatPieces(content, order);
    assert documents + NestedPieces(nested) + FlatPieces(content, order) == documents + rest;
    Text.JoinAppend(documents, rest, "\n");
  }

  /** Falsy values write nothing: a content table whose items are all falsy adds no piece. */
  lemma {:induction false} FalsyFieldsWriteNothing(content: map<string, Field>, order: seq<string>)
    requires forall k <- content.Keys :: forall item <- Items(content[k]) :: !Truthy(item)
    ensures FlatPieces(content, order) == []
  {
    if |order| > 0 {
      FalsyFieldsWriteNothing(content, order[..|order| - 1]);
      var k := order[|order| - 1];
      if k in content {
        FalsyItemsWriteNothing(k, Items(content[k]));
      }
    }
  }

  lemma {:induction false} FalsyItemsWriteNothing(key: string, items: seq<Scalar>)
    requires forall item <- items :: !Truthy(item)
    ensures TruthyTagged(key, items) == []
  {
    if |items| > 0 {
      assert forall item <- items[..|items| - 1] :: item in items;
      FalsyItemsWriteNothing(key, items[..|items| - 1]);
    }
  }

  /** A request with no documents, no nested block and only falsy content writes `<cps:content/>`. */
  lemma {:induction false} EmptyContentSelfCloses(env: Envelope, content: map<string, Field>, order: seq<string>)
    requires forall k <- content.Keys :: forall item <- Items(content[k]) :: !Truthy(item)
    ensures Text.EndsWith(Wrap(env, XmlContent([], [], content, order)), EmptyContent + RequestEnd)
  {
    FalsyFieldsWriteNothing(content, order);
    assert [] + NestedPieces([]) + FlatPieces(content, order) == [];
    EnvelopeEnd(env, "");
  }

  // ---------------------------------------------------------------------------
  // Document ids

  /**
   * `make_id_tag(root, rel_path, max_depth)` followed by setting the text of
   * the element it returns: walk the path from `root`, creating each missing
   * step as a new last child, and put the id text at the end; more steps than
   * `maxDepth` raise ParameterError.
   */
  function SetIdAt(root: Element, path: seq<string>, maxDepth: int, idText: string): (r: Outcome<Element>)
    decreases |path|
    ensures r.Err? <==> |path| > maxDepth
    ensures r.Err? ==> r.error == ParameterError("document_id_xpath too deep!")
    ensures r.Ok? ==> r.value.tag == root.tag
  {
    if maxDepth < 0 then Err(ParameterError("document_id_xpath too deep!"))
    else if |path| == 0 then Ok(root.(text := Some(idText)))
    else if path[0] == "." then SetIdAt(root, path[1..], maxDepth - 1, idText)
    else match FirstIndex(root.children, path[0])
      case Some(k) =>
        var child :- SetIdAt(root.children[k], path[1..], maxDepth - 1, idText);
        Ok(root.(children := root.children[k := child]))
      case None =>
        var child :- SetIdAt(Node(path[0]), path[1..], maxDepth - 1, idText);
        Ok(root.(children := root.children + [child]))
  }

  /** The deepest id path `add_id` accepts. */
  const MaxIdDepth: nat := 10

  /** `add_id(document, id)`: the id, as `str(id)`, written at the id path. */
  function AddId(document: Element, idPath: seq<string>, id: Scalar): (r: Outcome<Element>)
    ensures r.Err? <==> |idPath| > MaxIdDepth
    ensures r.Ok? ==> r.value.tag == document.tag
  {
    SetIdAt(document, idPath, MaxIdDepth, Str(id))
  }

  /**
   * What `add_id` writes, `get_doc_id` reads back: following the same path
   * in the updated document reaches the id text.
   */
  lemma {:induction false} IdReadsBack(root: Element, path: seq<string>, maxDepth: int, idText: string)
    requires |path| <= maxDepth
    ensures Responses.GetDocId(SetIdAt(root, path, maxDepth, idText).value, path) == Some(idText)
    decreases |path|
  {
    if |path| > 0 {
      var r := SetIdAt(root, path, maxDepth, idText).value;
      if path[0] == "." {
        IdReadsBack(root, path[1..], maxDepth - 1, idText);
      } else {
        match FirstIndex(root.children, path[0])
        case Some(k) =>
          IdReadsBack(root.children[k], path[1..], maxDepth - 1, idText);
          ReadsBackThroughChild(root, path, maxDepth, idText, k);
        case None =>
          IdReadsBack(Node(path[0]), path[1..], maxDepth - 1, idText);
          ReadsBackThroughNewChild(root, path, maxDepth, idText);
      }
    }
  }

  /** The step through an existing child: the updated child stays the first with its tag. */
  lemma {:induction false} ReadsBackThroughChild(root: Element, path: seq<string>, maxDepth: int, idText: string, k: nat)
    requires 0 < |path| <= maxDepth && path[0] != "."
    requires FirstIndex(root.children, path[0]) == Some(k)
    requires Responses.GetDocId(SetIdAt(root.children[k], path[1..], maxDepth - 1, idText).value, path[1..]) == Some(idText)
    ensures Responses.GetDocId(SetIdAt(root, path, maxDepth, idText).value, path) == Some(idText)
  {
    var child := SetIdAt(root.children[k], path[1..], maxDepth - 1, idText).value;
    var r := root.(children := root.children[k := child]);
    assert SetIdAt(root, path, maxDepth, idText) == Ok(r);
    FirstIndexAfterUpdate(root.children, k, child, path[0]);
    assert Find(r, path[0]) == Some(child);
  }

  /** The step through a missing child: the appended child is the first with its tag. */
  lemma {:induction false} ReadsBackThroughNewChild(root: Element, path: seq<string>, maxDepth: int, idText: string)
    requires 0 < |path| <= maxDepth && path[0] != "."
    requires FirstIndex(root.children, path[0]).None?
    requires Responses.GetDocId(SetIdAt(Node(path[0]), path[1..], maxDepth - 1, idText).value, path[1..]) == Some(idText)
    ensures Responses.GetDocId(SetIdAt(root, path, maxDepth, idText).value, path) == Some(idText)
  {
    var child := SetIdAt(Node(path[0]), path[1..], maxDepth - 1, idText).value;
    var r := root.(children := root.children + [child]);
    assert SetIdAt(root, path, maxDepth, idText) == Ok(r);
    FirstIndexAfterAppend(root.children, child, path[0]);
    assert Find(r, path[0]) == Some(child);
  }

  lemma {:induction false} FirstIndexAfterUpdate(children: seq<Element>, k: nat, child: Element, tag: string)
    requires FirstIndex(children, tag) == Some(k) && child.tag == tag
    ensures FirstIndex(children[k := child], tag) == Some(k)
  {
    if k > 0 {
      assert children[k := child][1..] == children[1..][k - 1 := child];
      FirstIndexAfterUpdate(children[1..], k - 1, child, tag);
    }
  }

  lemma {:induction false} FirstIndexAfterAppend(children: seq<Element>, child: Element, tag: string)
    requires FirstIndex(children, tag) == None && child.tag == tag
    ensures FirstIndex(children + [child], tag) == Some(|children|)
  {
    if |children| > 0 {
      assert (children + [child])[1..] == children[1..] + [child];
      FirstIndexAfterAppend(children[1..], child, tag);
    }
  }

  /** An id path of at most ten steps can always be written, and reads back as `str(id)`. */
  lemma {:induction false} AddIdRoundTrip(document: Element, idPath: seq<string>, id: Scalar)
    requires |idPath| <= MaxIdDepth
    ensures AddId(document, idPath, id).Ok?
    ensures Responses.GetDocId(AddId(document, idPath, id).value, idPath) == Some(Str(id))
  {
    IdReadsBack(document, idPath, MaxIdDepth, Str(id));
  }

  // ---------------------------------------------------------------------------
  // Documents

  /** What `set_documents` is given: fully formed documents (a list, or one), or documents keyed by id. */
  datatype DocumentsArg =
    | FullyFormed(docs: seq<Source>)
    | FullyFormedOne(doc: Source)
    | ById(entries: seq<(Scalar, Option<Source>)>)

  /** A missing document is the empty term under the root tag. */
  function SourceOf(document: Option<Source>, rootTag: string): Source
  {
    if document.None? then SrcText(Query.TermOf("", Some(rootTag), true)) else document.value
  }

  /**
   * `to_etree(document, doc_root_tag)` for each keyed document, in the
   * order the given dict lists them, stopping at the first error. With a
   * root tag every conversion gives one tree, so the `.tag` the wrapping
   * step reads always exists. The conversion is `to_etree` as written, so
   * an ElementTree document raises AttributeError.
   */
  function TreesOf(entries: seq<(Scalar, Option<Source>)>, rootTag: string, parse: string -> Option<Element>): (r: Outcome<seq<Element>>)
    ensures r.Ok? <==> forall i :: 0 <= i < |entries| ==> ToEtreeAsWritten(SourceOf(entries[i].1, rootTag), Some(rootTag), parse).Ok?
    ensures r.Ok? ==> |r.value| == |entries|
    ensures r.Ok? ==> forall i :: 0 <= i < |entries| ==>
      ToEtreeAsWritten(SourceOf(entries[i].1, rootTag), Some(rootTag), parse) == Ok(Single(r.value[i]))
    ensures (exists i :: 0 <= i < |entries| && SourceOf(entries[i].1, rootTag).SrcTree?) ==> r.Err?
  {
    if |entries| == 0 then Ok([])
    else
      match ToEtreeAsWritten(SourceOf(entries[0].1, rootTag), Some(rootTag), parse)
      case Err(e) => Err(e)
      case Ok(Roots(_)) => Err(AttributeError)
      case Ok(Single(tree)) =>
        match TreesOf(entries[1..], rootTag, parse)
        case Err(e) =>
          assert exists i :: 1 <= i < |entries| && ToEtreeAsWritten(SourceOf(entries[i].1, rootTag), Some(rootTag), parse).Err? by {
            var j :| 0 <= j < |entries| - 1 && ToEtreeAsWritten(SourceOf(entries[1..][j].1, rootTag), Some(rootTag), parse).Err?;
            assert entries[1..][j] == entries[j + 1];
          }
          Err(e)
        case Ok(rest) =>
          assert forall i :: 1 <= i < |entries| ==> entries[1..][i - 1] == entries[i];
          Ok([tree] + rest)
  }

  /** A document whose root is not the root tag is wrapped in a new root element. */
  function WrapRoot(document: Element, rootTag: string): (r: Element)
    ensures r.tag == rootTag
    ensures r == document || r.children == [document]
  {
    if document.tag != rootTag then Node(rootTag).(children := [document]) else document
  }

  /**
   * `to_raw_xml` of each fully formed document, stopping at the first error.
   * The conversion is `to_raw_xml` as written, so an ElementTree document
   * raises AttributeError.
   */
  function RawDocuments(docs: seq<Source>, serialise: Element -> string): (r: Outcome<seq<string>>)
    ensures r.Ok? <==> forall i :: 0 <= i < |docs| ==> ToRawXmlAsWritten(docs[i], serialise).Ok?
    ensures r.Ok? ==> |r.value| == |docs|
    ensures r.Ok? ==> forall i :: 0 <= i < |docs| ==> ToRawXmlAsWritten(docs[i], serialise) == Ok(r.value[i])
    ensures (exists i :: 0 <= i < |docs| && docs[i].SrcTree?) ==> r.Err?
  {
    if |docs| == 0 then Ok([])
    else
      match ToRawXmlAsWritten(docs[0], serialise)
      case Err(e) => Err(e)
      case Ok(text) =>
        match RawDocuments(docs[1..], serialise)
        case Err(e) =>
          assert exists i :: 1 <= i < |docs| && ToRawXmlAsWritten(docs[i], serialise).Err? by {
            var j :| 0 <= j < |docs| - 1 && ToRawXmlAsWritten(docs[1..][j], serialise).Err?;
            assert docs[1..][j] == docs[j + 1];
          }
          Err(e)
        case Ok(rest) =>
          assert forall i :: 1 <= i < |docs| ==> docs[1..][i - 1] == docs[i];
          Ok([text] + rest)
  }

  /** The ids of keyed documents, in the order the given dict lists them. */
  function EntryIds(entries: seq<(Scalar, Option<Source>)>): (r: seq<Scalar>)
    ensures |r| == |entries|
    ensures forall i :: 0 <= i < |entries| ==> r[i] == entries[i].0
  {
    seq(|entries|, i requires 0 <= i < |entries| => entries[i].0)
  }

  /**
   * The documents `set_documents` stores, or the error it raises (leaving
   * the stored documents as they were). Keyed documents are converted in
   * the order the given dict lists them; the converted ones sit in a new
   * dict, whose values come out in that dict's iteration order `order`.
   */
  function DocumentsOf(arg: DocumentsArg, rootTag: string, idPath: seq<string>, order: IterationOrder,
                       parse: string -> Option<Element>, serialise: Element -> string): (r: Outcome<seq<string>>)
  {
    match arg
    case FullyFormed(docs) => RawDocuments(docs, serialise)
    case FullyFormedOne(doc) => RawDocuments([doc], serialise)
    case ById(entries) => KeyedDocumentsOf(entries, rootTag, idPath, order, parse, serialise)
  }

  /**
   * The keyed documents `set_documents` stores: each converted, in the order
   * the given dict lists them, then listed in the iteration order of the
   * new dict they are stored in.
   */
  function KeyedDocumentsOf(entries: seq<(Scalar, Option<Source>)>, rootTag: string, idPath: seq<string>, order: IterationOrder,
                            parse: string -> Option<Element>, serialise: Element -> string): (r: Outcome<seq<string>>)
  {
    var trees :- TreesOf(entries, rootTag, parse);
    if |trees| > 0 && |idPath| > MaxIdDepth then Err(ParameterError("document_id_xpath too deep!"))
    else Ok(Arrange(StoredDocuments(trees, entries, rootTag, idPath, serialise), order(EntryIds(entries))))
  }

  /** Each converted keyed document under the root tag, with its id written in, serialised. */
  function StoredDocuments(trees: seq<Element>, entries: seq<(Scalar, Option<Source>)>, rootTag: string,
                           idPath: seq<string>, serialise: Element -> string): (r: seq<string>)
    requires |trees| == |entries| && (|trees| > 0 ==> |idPath| <= MaxIdDepth)
    ensures |r| == |trees|
    ensures forall i :: 0 <= i < |trees| ==> r[i] == serialise(AddId(WrapRoot(trees[i], rootTag), idPath, entries[i].0).value)
  {
    seq(|trees|, i requires 0 <= i < |trees| => serialise(AddId(WrapRoot(trees[i], rootTag), idPath, entries[i].0).value))
  }

  /** Wrapping, adding the ids and serialising in turn gives the stored documents. */
  lemma {:induction false} StoredFromSteps(built: seq<Element>, trees: seq<Element>, withIds: seq<Element>, serialised: seq<string>,
                                           entries: seq<(Scalar, Option<Source>)>, rootTag: string, idPath: seq<string>,
                                           serialise: Element -> string)
    requires |built| == |entries| && (|built| > 0 ==> |idPath| <= MaxIdDepth)
    requires |trees| == |built| && forall j :: 0 <= j < |built| ==> trees[j] == WrapRoot(built[j], rootTag)
    requires |withIds| == |trees| && forall j :: 0 <= j < |trees| ==> withIds[j] == AddId(trees[j], idPath, entries[j].0).value
    requires |serialised| == |withIds| && forall j :: 0 <= j < |withIds| ==> serialised[j] == serialise(withIds[j])
    ensures serialised == StoredDocuments(built, entries, rootTag, idPath, serialise)
  {
    var stored := StoredDocuments(built, entries, rootTag, idPath, serialise);
    forall j | 0 <= j < |serialised|
      ensures serialised[j] == stored[j]
    {
      assert withIds[j] == AddId(WrapRoot(built[j], rootTag), idPath, entries[j].0).value;
    }
  }

  /**
   * The document stored at position `j` is the one the dict's iteration
   * order puts there: its tree under the root tag, with the id written at
   * the id path, so that reading the id path of the stored tree gives
   * `str(id)` back. Every keyed document is stored exactly once.
   */
  lemma {:induction false} KeyedDocumentCarriesId(entries: seq<(Scalar, Option<Source>)>, rootTag: string, idPath: seq<string>,
                               order: IterationOrder, parse: string -> Option<Element>, serialise: Element -> string, j: nat)
    requires DocumentsOf(ById(entries), rootTag, idPath, order, parse, serialise).Ok?
    requires j < |entries|
    ensures |DocumentsOf(ById(entries), rootTag, idPath, order, parse, serialise).value| == |entries|
    ensures forall i :: 0 <= i < |entries| ==> i in order(EntryIds(entries))
    ensures var i := order(EntryIds(entries))[j];
      i < |entries| &&
      exists tree: Element ::
      ToEtreeAsWritten(SourceOf(entries[i].1, rootTag), Some(rootTag), parse) == Ok(Single(tree)) &&
      var stored := AddId(WrapRoot(tree, rootTag), idPath, entries[i].0).value;
      stored.tag == rootTag &&
      Responses.GetDocId(stored, idPath) == Some(Str(entries[i].0)) &&
      DocumentsOf(ById(entries), rootTag, idPath, order, parse, serialise).value[j] == serialise(stored)
  {
    var trees := TreesOf(entries, rootTag, parse).value;
    var i := order(EntryIds(entries))[j];
    AddIdRoundTrip(WrapRoot(trees[i], rootTag), idPath, entries[i].0);
    assert ToEtreeAsWritten(SourceOf(entries[i].1, rootTag), Some(rootTag), parse) == Ok(Single(trees[i]));
  }

  /** In insertion order the keyed documents are stored in the order they were given. */
  lemma {:induction false} KeyedDocumentsInInsertionOrder(entries: seq<(Scalar, Option<Source>)>, rootTag: string, idPath: seq<string>,
                                       parse: string -> Option<Element>, serialise: Element -> string)
    requires TreesOf(entries, rootTag, parse).Ok? && (|entries| == 0 || |idPath| <= MaxIdDepth)
    ensures DocumentsOf(ById(entries), rootTag, idPath, InsertionOrder, parse, serialise) ==
      Ok(StoredDocuments(TreesOf(entries, rootTag, parse).value, entries, rootTag, idPath, serialise))
  {
    var stored := StoredDocuments(TreesOf(entries, rootTag, parse).value, entries, rootTag, idPath, serialise);
    ArrangeInInsertionOrder(stored);
  }

  /** An id path longer than ten steps makes `set_documents` fail for any non-empty set of documents that convert. */
  lemma {:induction false} DeepIdPathRejected(entries: seq<(Scalar, Option<Source>)>, rootTag: string, idPath: seq<string>,
                           order: IterationOrder, parse: string -> Option<Element>, serialise: Element -> string)
    requires |entries| > 0 && |idPath| > MaxIdDepth
    requires TreesOf(entries, rootTag, parse).Ok?
    ensures DocumentsOf(ById(entries), rootTag, idPath, order, parse, serialise) == Err(ParameterError("document_id_xpath too deep!"))
  {
  }

  // ---------------------------------------------------------------------------
  // Setter inputs

  /** The tags whose setters store `str(value)`. */
  const StringifiedTags: set<string> :=
    {"docs", "offset", "facet_size", "group_size", "cr", "idif", "h", "id", "len", "quota"}

  /** The tags whose setters store the value as given. */
  const StoredTags: set<string> :=
    {"type", "agregate", "facet", "stem_lang", "exact_match", "group", "text", "path"}

  /** What `set_query` is given: a string, None, a query mapping, or anything else. */
  datatype QueryArg = QueryString(s: string) | NoQuery | QueryMap(entries: seq<(string, Query.QueryValue)>) | QueryOther

  /** What `set_ordering` is given: None, a string, or a list of strings. */
  datatype OrderingArg = NoOrdering | OrderingString(s: string) | OrderingList(items: seq<Scalar>)

  /** What `set_doc_ids` is given: a list of ids or one id. */
  datatype IdsArg = IdList(ids: seq<Scalar>) | SingleId(id: Scalar)

  /** No id before position `i` is the same dict key as the id at `i`. */
  predicate FirstOfKey(ids: seq<Scalar>, i: nat)
    requires i < |ids|
  {
    forall k :: 0 <= k < i ==> KeyOf(ids[k]) != KeyOf(ids[i])
  }

  /** The dict keys the values of `s` are, in turn. */
  function Keys(s: seq<Scalar>): (r: seq<Scalar>)
    ensures |r| == |s|
    ensures forall i :: 0 <= i < |s| ==> r[i] == KeyOf(s[i])
  {
    seq(|s|, i requires 0 <= i < |s| => KeyOf(s[i]))
  }

  /**
   * `kept` is what a dict keeps of `ids` inserted in turn: only given ids,
   * every id whose key no earlier id has, no key twice, and a key for every
   * given id.
   */
  predicate KeepsFirstKeys(ids: seq<Scalar>, kept: seq<Scalar>)
  {
    (forall x :: x in kept ==> x in ids) &&
    (forall i :: 0 <= i < |ids| && FirstOfKey(ids, i) ==> ids[i] in kept) &&
    (forall i, j :: 0 <= i < j < |kept| ==> KeyOf(kept[i]) != KeyOf(kept[j])) &&
    (forall x :: x in ids ==> KeyOf(x) in Keys(kept))
  }

  /** What a dict keeps of `ids` after inserting its last id too. */
  function KeepLast(ids: seq<Scalar>, init: seq<Scalar>): seq<Scalar>
    requires |ids| > 0
  {
    if KeyOf(ids[|ids| - 1]) in Keys(init) then init else init + [ids[|ids| - 1]]
  }

  /** Appending an id appends its key. */
  lemma {:induction false} KeysOfSnoc(init: seq<Scalar>, x: Scalar)
    ensures Keys(init + [x]) == Keys(init) + [KeyOf(x)]
  {
    var l, r := Keys(init + [x]), Keys(init) + [KeyOf(x)];
    assert |l| == |r|;
    forall i | 0 <= i < |l|
      ensures l[i] == r[i]
    {
      if i < |init| {
        assert (init + [x])[i] == init[i];
      }
    }
  }

  /** Inserting one more id keeps it exactly when its key is new. */
  lemma {:induction false} KeepsFirstKeysStep(ids: seq<Scalar>, init: seq<Scalar>)
    requires |ids| > 0 && KeepsFirstKeys(ids[..|ids| - 1], init)
    ensures KeepsFirstKeys(ids, KeepLast(ids, init))
  {
    var n := |ids| - 1;
    var kept := KeepLast(ids, init);
    assert forall x :: x in ids <==> x in ids[..n] || x == ids[n];
    KeepLastKeepsFirsts(ids, init);
    KeepLastCoversKeys(ids, init);
    if kept != init {
      KeysOfSnoc(init, ids[n]);
      forall i, j | 0 <= i < j < |kept|
        ensures KeyOf(kept[i]) != KeyOf(kept[j])
      {
        if j == |init| {
          assert Keys(init)[i] == KeyOf(kept[i]);
        }
      }
    }
  }

  /** Every id whose key is new when inserted is kept. */
  lemma {:induction false} KeepLastKeepsFirsts(ids: seq<Scalar>, init: seq<Scalar>)
    requires |ids| > 0 && KeepsFirstKeys(ids[..|ids| - 1], init)
    ensures forall i :: 0 <= i < |ids| && FirstOfKey(ids, i) ==> ids[i] in KeepLast(ids, init)
  {
    var n := |ids| - 1;
    var front := ids[..n];
    var kept := KeepLast(ids, init);
    forall i | 0 <= i < |ids| && FirstOfKey(ids, i)
      ensures ids[i] in kept
    {
      if i < n {
        assert front[i] == ids[i];
        assert FirstOfKey(front, i) by {
          forall k | 0 <= k < i
            ensures KeyOf(front[k]) != KeyOf(front[i])
          {
            assert front[k] == ids[k];
          }
        }
        assert ids[i] in init;
      } else {
        NewKeyIsKept(ids, init);
      }
    }
  }

  /** The last id is kept when no earlier id has its key. */
  lemma {:induction false} NewKeyIsKept(ids: seq<Scalar>, init: seq<Scalar>)
    requires |ids| > 0 && KeepsFirstKeys(ids[..|ids| - 1], init)
    requires FirstOfKey(ids, |ids| - 1)
    ensures ids[|ids| - 1] in KeepLast(ids, init)
  {
    var n := |ids| - 1;
    forall j | 0 <= j < |init|
      ensures Keys(init)[j] != KeyOf(ids[n])
    {
      assert init[j] in ids[..n];
      var k :| 0 <= k < n && ids[..n][k] == init[j];
      assert KeyOf(ids[k]) != KeyOf(ids[n]);
    }
    assert KeepLast(ids, init) == init + [ids[n]];
  }

  /** Every inserted id has its key among the kept ones. */
  lemma {:induction false} KeepLastCoversKeys(ids: seq<Scalar>, init: seq<Scalar>)
    requires |ids| > 0 && KeepsFirstKeys(ids[..|ids| - 1], init)
    ensures forall x :: x in ids ==> KeyOf(x) in Keys(KeepLast(ids, init))
  {
    var n := |ids| - 1;
    var kept := KeepLast(ids, init);
    if kept != init {
      KeysOfSnoc(init, ids[n]);
    }
    assert forall k :: k in Keys(init) ==> k in Keys(kept);
    forall x | x in ids
      ensures KeyOf(x) in Keys(kept)
    {
      if x in ids[..n] {
        assert KeyOf(x) in Keys(init);
      } else {
        assert x == ids[n];
      }
    }
  }

  /**
   * `dict.fromkeys(ids)`: the ids a dict keeps, in insertion order. An id
   * equal to an earlier one (`True` after 1, say) is the same key, and the
   * dict keeps the key object inserted first.
   */
  function Distinct(ids: seq<Scalar>): (r: seq<Scalar>)
    ensures KeepsFirstKeys(ids, r)
  {
    if |ids| == 0 then []
    else
      var init := Distinct(ids[..|ids| - 1]);
      KeepsFirstKeysStep(ids, init);
      KeepLast(ids, init)
  }

  /** Inserting one more id into what `dict.fromkeys` kept. */
  lemma {:induction false} DistinctSnoc(ids: seq<Scalar>, x: Scalar)
    ensures Distinct(ids + [x]) == if KeyOf(x) in Keys(Distinct(ids)) then Distinct(ids) else Distinct(ids) + [x]
  {
    assert (ids + [x])[..|ids|] == ids;
  }

  /**
   * An id equal to one inserted before it adds nothing: `True` after 1, or 1
   * after `True`, leaves what `dict.fromkeys` kept as it was.
   */
  lemma {:induction false} EqualKeyIsDropped(ids: seq<Scalar>, x: Scalar, y: Scalar)
    requires x in ids && KeyOf(x) == KeyOf(y)
    ensures Distinct(ids + [y]) == Distinct(ids)
    ensures KeyOf(PyBool(true)) == KeyOf(PyInt(1)) && KeyOf(PyBool(false)) == KeyOf(PyInt(0))
  {
    DistinctSnoc(ids, y);
    assert KeyOf(x) in Keys(Distinct(ids));
  }

  /** What a dict keeps does not depend on the order it is visited in. */
  lemma {:induction false} ArrangeKeepsFirstKeys(ids: seq<Scalar>, kept: seq<Scalar>, p: seq<nat>)
    requires KeepsFirstKeys(ids, kept) && IsArrangement(p, |kept|)
    ensures KeepsFirstKeys(ids, Arrange(kept, p))
  {
    var r := Arrange(kept, p);
    ArrangeKeepsItems(kept, p);
    forall i, j | 0 <= i < j < |r|
      ensures KeyOf(r[i]) != KeyOf(r[j])
    {
      if p[i] < p[j] {
        assert KeyOf(kept[p[i]]) != KeyOf(kept[p[j]]);
      } else {
        assert KeyOf(kept[p[j]]) != KeyOf(kept[p[i]]);
      }
    }
    forall x | x in ids
      ensures KeyOf(x) in Keys(r)
    {
      var j :| 0 <= j < |kept| && Keys(kept)[j] == KeyOf(x);
      assert kept[j] in r;
      var i :| 0 <= i < |r| && r[i] == kept[j];
      assert Keys(r)[i] == KeyOf(x);
    }
  }

  /**
   * The ids `set_doc_ids` hands to `set_documents`: what `dict.fromkeys`
   * keeps of a list, in that dict's iteration order; a single id alone.
   */
  function IdKeys(ids: IdsArg, order: IterationOrder): (r: seq<Scalar>)
    ensures ids.IdList? ==> KeepsFirstKeys(ids.ids, r) && |r| == |Distinct(ids.ids)|
    ensures ids.SingleId? ==> r == [ids.id]
  {
    if ids.IdList? then
      var keys := Distinct(ids.ids);
      ArrangeKeepsFirstKeys(ids.ids, keys, order(keys));
      Arrange(keys, order(keys))
    else [ids.id]
  }

  /** The texts of a list of strings. */
  function StringsOf(items: seq<Scalar>): (r: seq<string>)
    ensures |r| == |items|
    ensures forall i :: 0 <= i < |items| ==> r[i] == Str(items[i])
  {
    seq(|items|, i requires 0 <= i < |items| => Str(items[i]))
  }

  /** The `list` content: one term per key/value pair, nested in the key's path, one per line. */
  function ListTerms(pairs: seq<(string, string)>): string
  {
    Text.Join(seq(|pairs|, i requires 0 <= i < |pairs| => Query.TermOf(pairs[i].1, Some(pairs[i].0), true)), "\n")
  }

  lemma {:induction false} NestedPiecesSnoc(pieces: seq<string>, nested: seq<(string, seq<(string, Scalar)>)>, i: nat)
    requires i < |nested|
    ensures pieces + NestedPieces(nested[..i]) + NestedBlock(nested[i].0, nested[i].1) ==
      pieces + NestedPieces(nested[..i + 1])
  {
    assert nested[..i + 1][..i] == nested[..i];
  }

  lemma {:induction false} FlatPiecesSnoc(pieces: seq<string>, content: map<string, Field>, order: seq<string>, j: nat)
    requires j < |order| && order[j] in content
    ensures pieces + FlatPieces(content, order[..j]) + FieldPieces(order[j], content[order[j]]) ==
      pieces + FlatPieces(content, order[..j + 1])
  {
    assert order[..j + 1][..j] == order[..j];
  }

  /** The nested blocks of `get_xml_request`, appended in order. */
  method AppendNested(pieces: seq<string>, nested: seq<(string, seq<(string, Scalar)>)>) returns (r: seq<string>)
    ensures r == pieces + NestedPieces(nested)
  {
    r := pieces;
    var i := 0;
    while i < |nested|
      invariant 0 <= i <= |nested|
      invariant r == pieces + NestedPieces(nested[..i])
    {
      NestedPiecesSnoc(pieces, nested, i);
      r := r + NestedBlock(nested[i].0, nested[i].1);
      i := i + 1;
    }
    assert nested[..i] == nested;
  }

  /** The flat fields of `get_xml_request`, appended in the table's iteration order. */
  method AppendFlat(pieces: seq<string>, content: map<string, Field>, order: seq<string>) returns (r: seq<string>)
    requires forall k <- order :: k in content
    ensures r == pieces + FlatPieces(content, order)
  {
    r := pieces;
    var j := 0;
    while j < |order|
      invariant 0 <= j <= |order|
      invariant r == pieces + FlatPieces(content, order[..j])
    {
      FlatPiecesSnoc(pieces, content, order, j);
      r := r + FieldPieces(order[j], content[order[j]]);
      j := j + 1;
    }
    assert order[..j] == order;
  }

  /** The wrapping loop of `set_documents`: each tree not rooted at the root tag gets a new root. */
  method WrapRoots(documents: seq<Element>, rootTag: string) returns (trees: seq<Element>)
    ensures |trees| == |documents|
    ensures forall j :: 0 <= j < |documents| ==> trees[j] == WrapRoot(documents[j], rootTag)
  {
    trees := documents;
    var i := 0;
    while i < |trees|
      invariant 0 <= i <= |trees|
      invariant |trees| == |documents|
      invariant forall j :: 0 <= j < i ==> trees[j] == WrapRoot(documents[j], rootTag)
      invariant forall j :: i <= j < |trees| ==> trees[j] == documents[j]
    {
      if trees[i].tag != rootTag {
        trees := trees[i := Node(rootTag).(children := [trees[i]])];
      }
      i := i + 1;
    }
  }

  /** The `add_id` loop of `set_documents`: each tree gets its id; the first failure stops it. */
  method AddIds(documents: seq<Element>, entries: seq<(Scalar, Option<Source>)>, idPath: seq<string>)
    returns (r: Outcome<seq<Element>>)
    requires |entries| == |documents|
    ensures r.Err? <==> |documents| > 0 && |idPath| > MaxIdDepth
    ensures r.Err? ==> r.error == ParameterError("document_id_xpath too deep!")
    ensures r.Ok? ==> |r.value| == |documents|
    ensures r.Ok? ==> forall j :: 0 <= j < |documents| ==> r.value[j] == AddId(documents[j], idPath, entries[j].0).value
  {
    var trees := documents;
    var i := 0;
    while i < |trees|
      invariant 0 <= i <= |trees|
      invariant |trees| == |documents|
      invariant i > 0 ==> |idPath| <= MaxIdDepth
      invariant forall j :: 0 <= j < i ==> trees[j] == AddId(documents[j], idPath, entries[j].0).value
      invariant forall j :: i <= j < |trees| ==> trees[j] == documents[j]
    {
      var withId := AddId(trees[i], idPath, entries[i].0);
      if withId.Err? {
        return Err(withId.error);
      }
      trees := trees[i := withId.value];
      i := i + 1;
    }
    r := Ok(trees);
  }

  /**
   * The document strings `set_documents` prepares: every document converted
   * to a tree, put under the root tag, given its id and serialised, or the
   * fully formed documents serialised as they are.
   */
  method PrepareDocuments(arg: DocumentsArg, rootTag: string, idPath: seq<string>, order: IterationOrder,
                          parse: string -> Option<Element>, serialise: Element -> string)
    returns (r: Outcome<seq<string>>)
    ensures r == DocumentsOf(arg, rootTag, idPath, order, parse, serialise)
  {
    match arg
    case FullyFormed(docs) =>
      var raw := RawDocuments(docs, serialise);
      if raw.Err? {
        return Err(raw.error);
      }
      r := Ok(raw.value);
    case FullyFormedOne(doc) =>
      var raw := RawDocuments([doc], serialise);
      if raw.Err? {
        return Err(raw.error);
      }
      r := Ok(raw.value);
    case ById(entries) =>
      r := PrepareKeyed(entries, rootTag, idPath, order, parse, serialise);
  }

  /**
   * The keyed documents `set_documents` prepares: each converted to a tree,
   * put under the root tag, given its id and serialised, then listed in the
   * iteration order of the dict they are stored in.
   */
  method PrepareKeyed(entries: seq<(Scalar, Option<Source>)>, rootTag: string, idPath: seq<string>, order: IterationOrder,
                      parse: string -> Option<Element>, serialise: Element -> string)
    returns (r: Outcome<seq<string>>)
    ensures r == KeyedDocumentsOf(entries, rootTag, idPath, order, parse, serialise)
  {
    var built := TreesOf(entries, rootTag, parse);
    if built.Err? {
      return Err(built.error);
    }
    var trees := WrapRoots(built.value, rootTag);
    var withIds := AddIds(trees, entries, idPath);
    if withIds.Err? {
      return Err(withIds.error);
    }
    var serialised := seq(|withIds.value|, k requires 0 <= k < |withIds.value| => serialise(withIds.value[k]));
    StoredFromSteps(built.value, trees, withIds.value, serialised, entries, rootTag, idPath, serialise);
    r := Ok(Arrange(serialised, order(EntryIds(entries))));
  }

  // ---------------------------------------------------------------------------
  // The request

  class Request {
    const connection: Connection
    var command: string
    var requestId: Scalar
    var timestamp: Scalar
    var timeout: Scalar
    var typ: Option<string>
    /** The flat content fields by tag. */
    var content: map<string, Field>
    /** Nested content blocks; no setter fills them. */
    var nested: seq<(string, seq<(string, Scalar)>)>
    /** The prepared document strings. */
    var documents: seq<string>

    constructor(connection: Connection, command: string, requestId: Scalar, timeout: Scalar, typ: Option<string>)
      ensures this.connection == connection && this.command == command
      ensures this.requestId == requestId && this.timeout == timeout && this.typ == typ
      ensures timestamp == PyNone && content == map[] && nested == [] && documents == []
    {
      this.connection := connection;
      this.command := command;
      this.requestId := requestId;
      this.timestamp := PyNone;
      this.timeout := timeout;
      this.typ := typ;
      this.content := map[];
      this.nested := [];
      this.documents := [];
    }

    /** The envelope settings of this request on its connection. */
    function EnvelopeOf(): Envelope
      reads this
    {
      Envelope(connection.storage, requestId, timestamp, connection.replyCharset, connection.application,
               command, connection.user, connection.password, timeout, typ)
    }

    /** The order of the content table's keys: each key exactly once. */
    predicate IsOrder(order: seq<string>)
      reads this
    {
      (forall k <- content.Keys :: k in order) && (forall k <- order :: k in content) &&
      (forall i, j :: 0 <= i < j < |order| ==> order[i] != order[j])
    }

    /** The request text `get_xml_request` builds when the content table iterates in `order`. */
    function XmlRequest(order: seq<string>): string
      reads this
      requires IsOrder(order)
    {
      Wrap(EnvelopeOf(), XmlContent(documents, nested, content, order))
    }

    /** A `str()` setter: nothing for None, otherwise `str(value)` under its tag; no other key changes. */
    method SetStringified(tag: string, value: Scalar)
      requires tag in StringifiedTags
      modifies this
      ensures content == if value.PyNone? then old(content) else old(content)[tag := One(PyStr(Str(value)))]
      ensures documents == old(documents) && nested == old(nested) && command == old(command)
      ensures requestId == old(requestId) && timestamp == old(timestamp) && timeout == old(timeout) && typ == old(typ)
    {
      if !value.PyNone? {
        content := content[tag := One(PyStr(Str(value)))];
      }
    }

    /** A storing setter: nothing for None, otherwise the value as given under its tag. */
    method SetStored(tag: string, value: Field)
      requires tag in StoredTags
      modifies this
      ensures content == if value == One(PyNone) then old(content) else old(content)[tag := value]
      ensures documents == old(documents) && nested == old(nested) && command == old(command)
      ensures requestId == old(requestId) && timestamp == old(timestamp) && timeout == old(timeout) && typ == old(typ)
    {
      if value != One(PyNone) {
        content := content[tag := value];
      }
    }

    /** `set_backup_file`: only a name ending in `.tar.gz` (in any case) is stored; anything else raises ValueError. */
    method SetBackupFile(value: string) returns (err: Option<CpsError>)
      modifies this
      ensures err.None? <==> Text.EndsWith(Text.Lower(value), ".tar.gz")
      ensures err.Some? ==> err.value == ValueError && content == old(content)
      ensures err.None? ==> content == old(content)["file" := One(PyStr(value))]
      ensures documents == old(documents) && nested == old(nested) && command == old(command)
      ensures requestId == old(requestId) && timestamp == old(timestamp) && timeout == old(timeout) && typ == old(typ)
    {
      if Text.EndsWith(Text.Lower(value), ".tar.gz") {
        content := content["file" := One(PyStr(value))];
        err := None;
      } else {
        err := Some(ValueError);
      }
    }

    /** `set_sequence_check`: `yes` or `no` under `type` by the value's truth; nothing for None. */
    method SetSequenceCheck(value: Scalar)
      modifies this
      ensures content == if value.PyNone? then old(content)
                         else old(content)["type" := One(PyStr(if Truthy(value) then "yes" else "no"))]
      ensures documents == old(documents) && nested == old(nested) && command == old(command)
      ensures requestId == old(requestId) && timestamp == old(timestamp) && timeout == old(timeout) && typ == old(typ)
    {
      if !value.PyNone? {
        content := content["type" := One(PyStr(if Truthy(value) then "yes" else "no"))];
      }
    }

    /**
     * `set_query`: a string or None is stored as is, a query mapping as its
     * terms; anything else raises TypeError.
     */
    method SetQuery(value: QueryArg) returns (err: Option<CpsError>)
      modifies this
      ensures value.QueryOther? <==> err.Some?
      ensures err.Some? ==> err.value == TypeError && content == old(content)
      ensures value.QueryString? ==> content == old(content)["query" := One(PyStr(value.s))]
      ensures value.NoQuery? ==> content == old(content)["query" := One(PyNone)]
      ensures value.QueryMap? ==> content == old(content)["query" := One(PyStr(Query.TermsFrom(Query.QDict(value.entries), 0)))]
      ensures documents == old(documents) && nested == old(nested) && command == old(command)
      ensures requestId == old(requestId) && timestamp == old(timestamp) && timeout == old(timeout) && typ == old(typ)
    {
      err := None;
      match value
      case QueryString(s) =>
        content := content["query" := One(PyStr(s))];
      case NoQuery =>
        content := content["query" := One(PyNone)];
      case QueryMap(entries) =>
        var terms := Query.TermsFromDict(Query.QDict(entries));
        content := content["query" := One(PyStr(terms))];
      case QueryOther =>
        err := Some(TypeError);
    }

    /** `set_list`: the list pairs as terms, one per line, under `list`; nothing for None. */
    method SetList(value: Option<seq<(string, string)>>)
      modifies this
      ensures content == if value.None? then old(content) else old(content)["list" := One(PyStr(ListTerms(value.value)))]
      ensures documents == old(documents) && nested == old(nested) && command == old(command)
      ensures requestId == old(requestId) && timestamp == old(timestamp) && timeout == old(timeout) && typ == old(typ)
    {
      if value.Some? {
        content := content["list" := One(PyStr(ListTerms(value.value)))];
      }
    }

    /**
     * `set_ordering`: a string as is, a list of strings joined by newlines;
     * nothing for None. Joining a list holding anything but strings raises
     * TypeError.
     */
    method SetOrdering(value: OrderingArg) returns (err: Option<CpsError>)
      modifies this
      ensures err.Some? <==> value.OrderingList? && exists item <- value.items :: !item.PyStr?
      ensures err.Some? ==> err.value == TypeError
      ensures value.NoOrdering? || err.Some? ==> content == old(content)
      ensures value.OrderingString? ==> content == old(content)["ordering" := One(PyStr(value.s))]
      ensures value.OrderingList? && err.None? ==>
        content == old(content)["ordering" := One(PyStr(Text.Join(StringsOf(value.items), "\n")))]
      ensures documents == old(documents) && nested == old(nested) && command == old(command)
      ensures requestId == old(requestId) && timestamp == old(timestamp) && timeout == old(timeout) && typ == old(typ)
    {
      err := None;
      match value
      case NoOrdering =>
      case OrderingString(s) =>
        content := content["ordering" := One(PyStr(s))];
      case OrderingList(items) =>
        if exists item <- items :: !item.PyStr? {
          err := Some(TypeError);
        } else {
          content := content["ordering" := One(PyStr(Text.Join(StringsOf(items), "\n")))];
        }
    }

    /** `set_documents`: the prepared document strings are stored; on an error nothing is stored. */
    method SetDocuments(arg: DocumentsArg, order: IterationOrder, parse: string -> Option<Element>, serialise: Element -> string)
      returns (err: Option<CpsError>)
      modifies this
      ensures var spec := DocumentsOf(arg, connection.documentRootXpath, Text.Split(connection.documentIdXpath, '/'), order, parse, serialise);
              (err.None? <==> spec.Ok?) &&
              (spec.Ok? ==> documents == spec.value) &&
              (spec.Err? ==> err == Some(spec.error) && documents == old(documents))
      ensures content == old(content) && nested == old(nested) && command == old(command)
      ensures requestId == old(requestId) && timestamp == old(timestamp) && timeout == old(timeout) && typ == old(typ)
    {
      var prepared := PrepareDocuments(arg, connection.documentRootXpath, Text.Split(connection.documentIdXpath, '/'),
                                       order, parse, serialise);
      if prepared.Err? {
        return Some(prepared.error);
      }
      documents := prepared.value;
      err := None;
    }

    /**
     * `set_doc_ids`: documents for the given ids with no bodies. A list is
     * deduplicated by `dict.fromkeys`, whose dict hands its ids to
     * `set_documents` in its iteration order.
     */
    method SetDocIds(ids: IdsArg, order: IterationOrder, parse: string -> Option<Element>, serialise: Element -> string)
      returns (err: Option<CpsError>)
      modifies this
      ensures var keys := IdKeys(ids, order);
              var spec := DocumentsOf(ById(seq(|keys|, i requires 0 <= i < |keys| => (keys[i], None))),
                                      connection.documentRootXpath, Text.Split(connection.documentIdXpath, '/'), order, parse, serialise);
              (err.None? <==> spec.Ok?) &&
              (spec.Ok? ==> documents == spec.value) &&
              (spec.Err? ==> err == Some(spec.error) && documents == old(documents))
      ensures content == old(content) && nested == old(nested) && command == old(command)
      ensures requestId == old(requestId) && timestamp == old(timestamp) && timeout == old(timeout) && typ == old(typ)
    {
      var keys := IdKeys(ids, order);
      err := SetDocuments(ById(seq(|keys|, i requires 0 <= i < |keys| => (keys[i], None))), order, parse, serialise);
    }

    /** `BackupRequest`: command `backup`, the archive name under `file` and the backup type under `type`. */
    static method NewBackup(connection: Connection, backupFile: string, backupType: Field,
                            requestId: Scalar, timeout: Scalar, typ: Option<string>)
      returns (r: Request, err: Option<CpsError>)
      ensures fresh(r) && r.connection == connection && r.command == "backup" && r.documents == []
      ensures r.requestId == requestId && r.timeout == timeout && r.typ == typ && r.nested == [] && r.timestamp == PyNone
      ensures err.None? <==> Text.EndsWith(Text.Lower(backupFile), ".tar.gz")
      ensures err.Some? ==> err.value == ValueError
      ensures err.None? && backupType == One(PyNone) ==> r.content == map["file" := One(PyStr(backupFile))]
      ensures err.None? && backupType != One(PyNone) ==> r.content == map["file" := One(PyStr(backupFile)), "type" := backupType]
    {
      r := new Request(connection, "backup", requestId, timeout, typ);
      err := r.SetBackupFile(backupFile);
      if err.None? {
        r.SetStored("type", backupType);
      }
    }

    /** `RestoreRequest`: command `restore`, the archive name under `file` and the sequence check under `type`. */
    static method NewRestore(connection: Connection, backupFile: string, sequenceCheck: Scalar,
                             requestId: Scalar, timeout: Scalar, typ: Option<string>)
      returns (r: Request, err: Option<CpsError>)
      ensures fresh(r) && r.connection == connection && r.command == "restore" && r.documents == []
      ensures r.requestId == requestId && r.timeout == timeout && r.typ == typ && r.nested == [] && r.timestamp == PyNone
      ensures err.None? <==> Text.EndsWith(Text.Lower(backupFile), ".tar.gz")
      ensures err.Some? ==> err.value == ValueError
      ensures err.None? && sequenceCheck.PyNone? ==> r.content == map["file" := One(PyStr(backupFile))]
      ensures err.None? && !sequenceCheck.PyNone? ==>
        r.content == map["file" := One(PyStr(backupFile)), "type" := One(PyStr(if Truthy(sequenceCheck) then "yes" else "no"))]
    {
      r := new Request(connection, "restore", requestId, timeout, typ);
      err := r.SetBackupFile(backupFile);
      if err.None? {
        r.SetSequenceCheck(sequenceCheck);
      }
    }

    /**
     * `InsertRequest`, `UpdateRequest`, `ReplaceRequest` and
     * `PartialReplaceRequest`: the documents set as `set_documents` does,
     * under the command of the subclass.
     */
    static method NewModify(connection: Connection, command: string, arg: DocumentsArg, order: IterationOrder,
                            parse: string -> Option<Element>, serialise: Element -> string,
                            requestId: Scalar, timeout: Scalar, typ: Option<string>)
      returns (r: Request, err: Option<CpsError>)
      requires command in {"insert", "update", "replace", "partial-replace"}
      ensures fresh(r) && r.connection == connection && r.command == command && r.content == map[]
      ensures r.requestId == requestId && r.timeout == timeout && r.typ == typ && r.nested == [] && r.timestamp == PyNone
      ensures var spec := DocumentsOf(arg, connection.documentRootXpath, Text.Split(connection.documentIdXpath, '/'), order, parse, serialise);
              (err.None? <==> spec.Ok?) &&
              (spec.Ok? ==> r.documents == spec.value) &&
              (spec.Err? ==> err == Some(spec.error))
    {
      r := new Request(connection, command, requestId, timeout, typ);
      err := r.SetDocuments(arg, order, parse, serialise);
    }

    /** The timestamp can be set, but it is never written. */
    method SetTimestamp(value: Scalar)
      modifies this
      ensures timestamp == value
      ensures content == old(content) && nested == old(nested) && documents == old(documents) && command == old(command)
      ensures requestId == old(requestId) && timeout == old(timeout) && typ == old(typ)
      ensures forall order :: IsOrder(order) ==> XmlRequest(order) == old(XmlRequest(order))
    {
      timestamp := value;
    }

    /**
     * `get_xml_request`: the documents, the nested blocks and the flat fields
     * (in the table's iteration order `order`) joined by newlines, wrapped in
     * the envelope.
     */
    method GetXmlRequest(order: seq<string>) returns (r: string)
      requires IsOrder(order)
      ensures r == XmlRequest(order)
    {
      var pieces: seq<string> := [];
      if |documents| > 0 {
        pieces := pieces + documents;
      }
      assert pieces == documents;
      pieces := AppendNested(pieces, nested);
      pieces := AppendFlat(pieces, content, order);
      assert pieces == documents + NestedPieces(nested) + FlatPieces(content, order);
      r := Wrap(EnvelopeOf(), Text.Join(pieces, "\n"));
    }

    /** The request text handed to the connection, and the raw reply of `_send_request`. */
    method Transmit(order: seq<string>) returns (reply: Outcome<string>)
      requires IsOrder(order)
      modifies connection
      ensures reply == SendOutcome(connection.attemptEnds(old(connection.attempts)), connection.openSucceeds(old(connection.opens)),
                                   connection.attemptEnds(old(connection.attempts) + 1))
      ensures |connection.sent| > |old(connection.sent)|
      ensures connection.sent[|old(connection.sent)|].body == old(XmlRequest(order))
    {
      var xml := GetXmlRequest(order);
      ghost var before := |connection.sent|;
      reply := connection.SendRequest(xml);
      assert before <= |connection.sent| - 1 && connection.sent[before].body == xml;
    }

    /**
     * `send`: the request text goes through the connection, and the reply
     * is read as the response view of this request's command.
     */
    method Send(order: seq<string>, dictOrder: IterationOrder, parse: string -> Option<Element>) returns (r: Outcome<Responses.Response>)
      requires IsOrder(order)
      modifies connection
      ensures var first := connection.attemptEnds(old(connection.attempts));
              var reply := SendOutcome(first, connection.openSucceeds(old(connection.opens)),
                                       connection.attemptEnds(old(connection.attempts) + 1));
              r == match reply
                   case Err(e) => Err(e)
                   case Ok(raw) => Responses.HandleResponse(raw, command, connection.documentIdXpath, true, parse, dictOrder)
      ensures |connection.sent| > |old(connection.sent)|
      ensures connection.sent[|old(connection.sent)|].body == old(XmlRequest(order))
    {
      var reply := Transmit(order);
      r := match reply
           case Err(e) => Err(e)
           case Ok(raw) => Responses.HandleResponse(raw, command, connection.documentIdXpath, true, parse, dictOrder);
    }
  }
}
