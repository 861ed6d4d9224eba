/**
 * Reading a server reply (pycps/response.py): choosing the response view by
 * command, checking the reply for server errors, and the accessors of each
 * view. The XML parser and serialiser are parameters; a reply is a value
 * holding the parsed envelope and its content element.
 */
module Responses {
  import opened Wrappers
  import opened Errors
  import opened Xml
  import opened Values
  import Text
  import opened Converters
  import opened Dicts

  // ---------------------------------------------------------------------------
  // Dispatch

  /** The response classes a command can be answered with. */
  datatype Kind =
    | BaseResponse
    | StatusResponse
    | ModifyResponse
    | SearchDeleteResponse
    | ListResponse
    | LookupResponse
    | SearchResponse
    | WordsResponse
    | AlternativesResponse
    | ListPathsResponse
    | ListFacetsResponse

  /** The commands the dispatch table names explicitly (show-history included). */
  const ListedCommands: set<string> := {
    "insert", "replace", "partial-replace", "update", "delete", "search-delete",
    "reindex", "backup", "restore", "clear", "status", "search", "retrieve",
    "similar", "lookup", "alternatives", "list-words", "list-first", "list-last",
    "retrieve-last", "retrieve-first", "show-history", "list-paths", "list-facets"}

  const ModifyCommands: set<string> := {"insert", "replace", "partial-replace", "update", "delete"}

  const ListCommands: set<string> := {"retrieve", "similar", "list-first", "list-last", "retrieve-last", "retrieve-first"}

  /** The listed commands answered with the base view: show-history among them once its None entry is set aside. */
  const BaseCommands: set<string> := {"reindex", "backup", "restore", "clear", "show-history"}

  /**
   * `_response_switch[command]` as written: show-history maps to None, which
   * is then called and raises TypeError; an unlisted command (KeyError) falls
   * back to the base class.
   */
  function KindOfAsWritten(command: string): (r: Option<Kind>)
    ensures r.None? <==> command == "show-history"
    ensures command !in ListedCommands ==> r == Some(BaseResponse)
  {
    if command in ModifyCommands then Some(ModifyResponse)
    else if command == "search-delete" then Some(SearchDeleteResponse)
    else if command in {"reindex", "backup", "restore", "clear"} then Some(BaseResponse)
    else if command == "status" then Some(StatusResponse)
    else if command == "search" then Some(SearchResponse)
    else if command in ListCommands then Some(ListResponse)
    else if command == "lookup" then Some(LookupResponse)
    else if command == "alternatives" then Some(AlternativesResponse)
    else if command == "list-words" then Some(WordsResponse)
    else if command == "show-history" then None
    else if command == "list-paths" then Some(ListPathsResponse)
    else if command == "list-facets" then Some(ListFacetsResponse)
    else Some(BaseResponse)
  }

  /** Dispatch with show-history handled like any command without a view of its own. */
  function KindOf(command: string): (r: Kind)
    ensures command !in ListedCommands ==> r == BaseResponse
    ensures r == ModifyResponse <==> command in ModifyCommands
    ensures r == ListResponse <==> command in ListCommands
    ensures r == StatusResponse <==> command == "status"
    ensures r == LookupResponse <==> command == "lookup"
    ensures r == SearchResponse <==> command == "search"
    ensures r == SearchDeleteResponse <==> command == "search-delete"
    ensures r == AlternativesResponse <==> command == "alternatives"
    ensures r == WordsResponse <==> command == "list-words"
    ensures r == ListPathsResponse <==> command == "list-paths"
    ensures r == ListFacetsResponse <==> command == "list-facets"
    ensures r == BaseResponse <==> command !in ListedCommands || command in BaseCommands
  {
    match KindOfAsWritten(command)
    case None => BaseResponse
    case Some(k) => k
  }

  /** Every command but show-history is dispatched as written; show-history gets the base view instead of TypeError. */
  lemma {:induction false} KindOfMatchesTable(command: string)
    ensures command != "show-history" ==> KindOfAsWritten(command) == Some(KindOf(command))
    ensures KindOfAsWritten("show-history") == None && KindOf("show-history") == BaseResponse
  {
  }

  // ---------------------------------------------------------------------------
  // Server errors

  /** The severity levels that make an error fatal. */
  const FatalLevels: set<string> := {"rejected", "failed", "error", "fatal"}

  /** `child.text` of `find(tag)`: AttributeError when the child is missing. */
  function ChildText(e: Element, tag: string): (r: Outcome<Option<string>>)
    ensures r.Err? <==> Find(e, tag).None?
    ensures r.Err? ==> r.error == AttributeError
    ensures r.Ok? ==> r.value == Find(e, tag).value.text
  {
    match Find(e, tag)
    case None => Err(AttributeError)
    case Some(c) => Ok(c.text)
  }

  /** The texts of the `document_id` children. */
  function DocumentIds(e: Element): (r: seq<Option<string>>)
    ensures |r| == |FindAll(e, "document_id")|
    ensures forall i :: 0 <= i < |r| ==> r[i] == FindAll(e, "document_id")[i].text
  {
    var ids := FindAll(e, "document_id");
    seq(|ids|, i requires 0 <= i < |ids| => ids[i].text)
  }

  /** The fields read by APIWarning (and by APIError after the code): any missing child raises AttributeError. */
  function ReadErrorFields(e: Element): (r: Outcome<ErrorFields>)
    ensures r.Ok? <==>
      Find(e, "code").Some? && Find(e, "text").Some? && Find(e, "level").Some? &&
      Find(e, "source").Some? && Find(e, "message").Some?
    ensures r.Err? ==> r.error == AttributeError
    ensures r.Ok? ==> r.value == ErrorFields(
      Find(e, "code").value.text, Find(e, "text").value.text, Find(e, "level").value.text,
      Find(e, "source").value.text, Find(e, "message").value.text, DocumentIds(e))
  {
    var code :- ChildText(e, "code");
    var text :- ChildText(e, "text");
    var level :- ChildText(e, "level");
    var source :- ChildText(e, "source");
    var message :- ChildText(e, "message");
    Ok(ErrorFields(code, text, level, source, message, DocumentIds(e)))
  }

  /**
   * The exception `APIError(error)` ends in: the APIError itself, or the
   * error its constructor raises first (no code child: AttributeError; no
   * code text: TypeError; a code that is not an integer: ValueError; a missing
   * field: AttributeError).
   */
  function ApiErrorOf(e: Element): (r: CpsError)
    ensures r.ApiError? <==>
      ReadErrorFields(e).Ok? && Find(e, "code").value.text.Some? &&
      Text.ParseInt(Find(e, "code").value.text.value).Some?
    ensures r.ApiError? ==>
      r.fields == ReadErrorFields(e).value && Some(r.code) == Text.ParseInt(r.fields.code.value)
    ensures Find(e, "code").None? ==> r == AttributeError
    ensures Find(e, "code").Some? && Find(e, "code").value.text.None? ==> r == TypeError
    ensures (Find(e, "code").Some? && Find(e, "code").value.text.Some? &&
             Text.ParseInt(Find(e, "code").value.text.value).None?) ==> r == ValueError
    ensures (Find(e, "code").Some? && Find(e, "code").value.text.Some? &&
             Text.ParseInt(Find(e, "code").value.text.value).Some? && ReadErrorFields(e).Err?) ==> r == AttributeError
  {
    match ChildText(e, "code")
    case Err(err) => err
    case Ok(None) => TypeError
    case Ok(Some(c)) =>
      match Text.ParseInt(c)
      case None => ValueError
      case Some(code) =>
        match ReadErrorFields(e)
        case Err(err) => err
        case Ok(fields) => ApiError(code, fields)
  }

  /** The envelope's error block, if any. */
  function ErrorBlock(root: Element): Option<Element>
  {
    Find(root, Namespace + "error")
  }

  /** The error block has a level child with text. */
  predicate HasLevel(error: Element)
  {
    Find(error, "level").Some? && Find(error, "level").value.text.Some?
  }

  /** The error block's level, lower-cased, is one of the fatal ones. */
  predicate IsFatal(error: Element)
  {
    HasLevel(error) && Text.Lower(Find(error, "level").value.text.value) in FatalLevels
  }

  /**
   * `_parse_for_errors`: no error block passes; a fatal level raises the
   * APIError; any other level yields the APIWarning's fields and lets
   * construction go on. A missing level (or level text) raises AttributeError.
   */
  function ParseForErrors(root: Element): (r: Outcome<Option<ErrorFields>>)
    ensures ErrorBlock(root).None? ==> r == Ok(None)
    ensures ErrorBlock(root).Some? && IsFatal(ErrorBlock(root).value) ==>
      r == Err(ApiErrorOf(ErrorBlock(root).value))
    ensures r.Err? && r.error.ApiError? ==> ErrorBlock(root).Some? && IsFatal(ErrorBlock(root).value)
    ensures r.Ok? && r.value.Some? ==>
      ErrorBlock(root).Some? && !IsFatal(ErrorBlock(root).value) &&
      ReadErrorFields(ErrorBlock(root).value) == Ok(r.value.value)
    ensures ErrorBlock(root).Some? && !HasLevel(ErrorBlock(root).value) ==> r == Err(AttributeError)
    ensures ErrorBlock(root).Some? && HasLevel(ErrorBlock(root).value) && !IsFatal(ErrorBlock(root).value) ==>
      r == (match ReadErrorFields(ErrorBlock(root).value)
            case Ok(fields) => Ok(Some(fields))
            case Err(e) => Err(e))
  {
    match ErrorBlock(root)
    case None => Ok(None)
    case Some(error) =>
      var level :- ChildText(error, "level");
      if level.None? then Err(AttributeError)
      else if Text.Lower(level.value) in FatalLevels then Err(ApiErrorOf(error))
      else
        var fields :- ReadErrorFields(error);
        Ok(Some(fields))
  }

  // ---------------------------------------------------------------------------
  // The response value

  /**
   * A constructed response: its view, the parsed envelope, the content
   * element (None when the envelope has none), the id path split on `/`, the
   * warning issued while checking for errors, and for the status view the
   * content as a dict.
   */
  datatype Response = Response(
    kind: Kind,
    root: Element,
    content: Option<Element>,
    idPath: seq<string>,
    warning: Option<ErrorFields>,
    status: Option<Dv>)

  /** `get_content_dict`: etree_to_dict of the content element, whose own tag is then looked up. */
  function ContentDict(content: Option<Element>, order: IterationOrder): (r: Outcome<Dv>)
    ensures content.None? ==> r == Err(TypeError)
    ensures content.Some? ==> r == Ok(ValueOf(content.value, order))
  {
    match content
    case None => Err(TypeError)
    case Some(c) => Ok(ValueOf(c, order))
  }

  /** StatusResponse reads its content as a dict while it is constructed; the other views read nothing. */
  function StatusOf(kind: Kind, content: Option<Element>, order: IterationOrder): (r: Outcome<Option<Dv>>)
    ensures kind != StatusResponse ==> r == Ok(None)
    ensures kind == StatusResponse ==> (r.Ok? <==> content.Some?)
    ensures kind == StatusResponse && r.Ok? ==> r.value == Some(ValueOf(content.value, order))
  {
    if kind != StatusResponse then Ok(None)
    else match ContentDict(content, order)
      case Err(e) => Err(e)
      case Ok(d) => Ok(Some(d))
  }

  /**
   * `Response.__init__` of the given view (and StatusResponse's reading of
   * its status): a reply that does not parse raises ResponseError with the
   * raw text; errors are checked only when asked, and the warning a
   * non-fatal error issues is kept with the response.
   */
  function NewResponse(kind: Kind, raw: string, idXpath: string, raiseErrors: bool,
                       parse: string -> Option<Element>, order: IterationOrder): (r: Outcome<Response>)
    ensures parse(raw).None? ==> r == Err(ResponseError(raw))
    ensures r.Ok? ==>
      Some(r.value.root) == parse(raw) && r.value.kind == kind &&
      r.value.content == Find(r.value.root, Namespace + "content") &&
      r.value.idPath == Text.Split(idXpath, '/')
    ensures parse(raw).Some? && raiseErrors && ParseForErrors(parse(raw).value).Err? ==>
      r == Err(ParseForErrors(parse(raw).value).error)
    ensures parse(raw).Some? ==>
      (r.Ok? <==>
        (!raiseErrors || ParseForErrors(parse(raw).value).Ok?) &&
        (kind != StatusResponse || Find(parse(raw).value, Namespace + "content").Some?))
    ensures parse(raw).Some? && r.Err? && (!raiseErrors || ParseForErrors(parse(raw).value).Ok?) ==>
      r == Err(TypeError)
    ensures r.Ok? ==> r.value.warning == (if raiseErrors then ParseForErrors(r.value.root).value else None)
    ensures r.Ok? ==>
      r.value.status == (if kind == StatusResponse then Some(ValueOf(r.value.content.value, order)) else None)
  {
    match parse(raw)
    case None => Err(ResponseError(raw))
    case Some(root) =>
      var warning :- if raiseErrors then ParseForErrors(root) else Ok(None);
      var content := Find(root, Namespace + "content");
      var status :- StatusOf(kind, content, order);
      Ok(Response(kind, root, content, Text.Split(idXpath, '/'), warning, status))
  }

  /** `_handle_response` as written: show-history raises TypeError before the reply is read. */
  function HandleResponseAsWritten(raw: string, command: string, idXpath: string, raiseErrors: bool,
                                   parse: string -> Option<Element>, order: IterationOrder): (r: Outcome<Response>)
    ensures command == "show-history" ==> r == Err(TypeError)
    ensures command != "show-history" ==> r == HandleResponse(raw, command, idXpath, raiseErrors, parse, order)
  {
    match KindOfAsWritten(command)
    case None => Err(TypeError)
    case Some(kind) => NewResponse(kind, raw, idXpath, raiseErrors, parse, order)
  }

  /** `_handle_response`, show-history answered with the base view. */
  function HandleResponse(raw: string, command: string, idXpath: string, raiseErrors: bool,
                          parse: string -> Option<Element>, order: IterationOrder): (r: Outcome<Response>)
    ensures r.Ok? ==> r.value.kind == KindOf(command)
    ensures parse(raw).None? ==> r == Err(ResponseError(raw))
  {
    NewResponse(KindOf(command), raw, idXpath, raiseErrors, parse, order)
  }

  // ---------------------------------------------------------------------------
  // Content accessors

  /**
   * `etree_to_dict(field)[name]`: the representation of a field is a mapping
   * whose one key is the field's tag, so looking it up by `name` raises
   * KeyError unless the tag is `name`.
   */
  function FieldValue(field: Element, name: string, order: IterationOrder): (v: Outcome<Dv>)
    ensures v.Ok? <==> field.tag == name
    ensures v.Ok? ==> v.value == ValueOf(field, order)
    ensures v.Err? ==> v.error == KeyError(name)
  {
    if field.tag == name then Ok(ValueOf(field, order)) else Err(KeyError(name))
  }

  /** The values of the fields, or the KeyError of the first one not tagged `name`. */
  function FieldValues(fields: seq<Element>, name: string, order: IterationOrder): (v: Outcome<seq<Dv>>)
    ensures v.Ok? <==> forall i :: 0 <= i < |fields| ==> fields[i].tag == name
    ensures v.Ok? ==> |v.value| == |fields| && forall i :: 0 <= i < |fields| ==> v.value[i] == ValueOf(fields[i], order)
    ensures v.Err? ==> v.error == KeyError(name)
  {
    if |fields| == 0 then Ok([])
    else
      assert forall i :: 1 <= i < |fields| ==> fields[1..][i - 1] == fields[i];
      var first :- FieldValue(fields[0], name, order);
      var rest :- FieldValues(fields[1..], name, order);
      Ok([first] + rest)
  }

  /**
   * `get_content_field(name)`: None for no match, the one match's value, or
   * the list of all matches' values, each read from its representation under
   * the key `name`.
   */
  function ContentField(r: Response, name: string, order: IterationOrder): (v: Outcome<Dv>)
    ensures r.content.None? ==> v == Err(AttributeError)
    ensures r.content.Some? ==>
      (v.Ok? <==> forall f <- FindAll(r.content.value, name) :: f.tag == name)
    ensures v.Err? && r.content.Some? ==> v.error == KeyError(name)
    ensures r.content.Some? && |FindAll(r.content.value, name)| == 0 ==> v == Ok(DScalar(PyNone))
    ensures v.Ok? && |FindAll(r.content.value, name)| == 1 ==>
      v.value == ValueOf(FindAll(r.content.value, name)[0], order)
    ensures v.Ok? && |FindAll(r.content.value, name)| > 1 ==>
      v.value.DList? &&
      |v.value.items| == |FindAll(r.content.value, name)| &&
      forall i :: 0 <= i < |v.value.items| ==> v.value.items[i] == ValueOf(FindAll(r.content.value, name)[i], order)
  {
    match r.content
    case None => Err(AttributeError)
    case Some(c) =>
      var fields := FindAll(c, name);
      assert forall f <- fields :: exists i :: 0 <= i < |fields| && fields[i] == f;
      if |fields| == 0 then Ok(DScalar(PyNone))
      else if |fields| == 1 then FieldValue(fields[0], name, order)
      else
        var values :- FieldValues(fields, name, order);
        Ok(DList(values))
  }

  /**
   * A field named by a tag is always found under that key. The path `.`
   * finds the content element itself, whose key is its own tag: KeyError('.').
   */
  lemma {:induction false} ContentFieldKeys(r: Response, name: string, order: IterationOrder)
    requires r.content.Some?
    ensures name != "." ==> ContentField(r, name, order).Ok?
    ensures name == "." && r.content.value.tag != "." ==> ContentField(r, name, order) == Err(KeyError("."))
  {
  }

  /** A reply whose content element is tagged as the envelope tags it gives KeyError('.') for the path `.`. */
  lemma {:induction false} DotFieldIsKeyError(r: Response, order: IterationOrder)
    requires r.content.Some? && r.content.value.tag == Namespace + "content"
    ensures ContentField(r, ".", order) == Err(KeyError("."))
  {
    assert (Namespace + "content")[0] == '{';
  }

  /** The serialised form of each element, in order. */
  function Serialised(es: seq<Element>, serialise: Element -> string): (r: seq<string>)
    ensures |r| == |es|
    ensures forall i :: 0 <= i < |es| ==> r[i] == serialise(es[i])
  {
    seq(|es|, i requires 0 <= i < |es| => serialise(es[i]))
  }

  /** `get_content_string`: the serialised children of the content, concatenated in document order. */
  function ContentString(r: Response, serialise: Element -> string): (s: Outcome<string>)
    ensures r.content.None? ==> s == Err(TypeError)
    ensures r.content.Some? ==> s == Ok(Text.Concat(Serialised(r.content.value.children, serialise)))
  {
    match r.content
    case None => Err(TypeError)
    case Some(c) => Ok(Text.Concat(Serialised(c.children, serialise)))
  }

  /** The content string of a reply is the first child's serialisation followed by the content string of the rest. */
  lemma {:induction false} ContentStringSplits(c: Element, r: Response, serialise: Element -> string)
    requires r.content == Some(c) && |c.children| > 0
    ensures ContentString(r, serialise) ==
      Ok(serialise(c.children[0]) + ContentString(r.(content := Some(c.(children := c.children[1..]))), serialise).value)
  {
    var parts := Serialised(c.children, serialise);
    var rest := Serialised(c.children[1..], serialise);
    assert parts == [serialise(c.children[0])] + rest;
    Text.ConcatAppend([serialise(c.children[0])], rest);
  }

  /** The `storage` property: the text of the envelope's storage element; AttributeError when it is missing. */
  function StorageName(r: Response): (s: Outcome<Option<string>>)
    ensures s.Ok? <==> Find(r.root, Namespace + "storage").Some?
    ensures s.Ok? ==> s.value == Find(r.root, Namespace + "storage").value.text
    ensures s.Err? ==> s.error == AttributeError
  {
    ChildText(r.root, Namespace + "storage")
  }

  /** The `command` property: the text of the envelope's command element; AttributeError when it is missing. */
  function CommandName(r: Response): (s: Outcome<Option<string>>)
    ensures s.Ok? <==> Find(r.root, Namespace + "command").Some?
    ensures s.Ok? ==> s.value == Find(r.root, Namespace + "command").value.text
    ensures s.Err? ==> s.error == AttributeError
  {
    ChildText(r.root, Namespace + "command")
  }

  /** Python `int(v)` of a field value: only a text converts; its absence or a structure is a TypeError. */
  function IntOf(v: Dv): (r: Outcome<int>)
    ensures v.DScalar? && v.v.PyStr? ==> (r.Ok? <==> Text.ParseInt(v.v.s).Some?)
    ensures r.Ok? ==> v.DScalar? && v.v.PyStr? && Some(r.value) == Text.ParseInt(v.v.s)
    ensures r.Err? && !(v.DScalar? && v.v.PyStr?) ==> r.error == TypeError
  {
    match v
    case DScalar(PyStr(s)) =>
      (match Text.ParseInt(s)
       case None => Err(ValueError)
       case Some(n) => Ok(n))
    case _ => Err(TypeError)
  }

  /**
   * The text a reply reports under `name` when it reports one: exactly one
   * matching field, tagged `name`, without children and with text.
   */
  function ReportedText(r: Response, name: string): (t: Option<string>)
    ensures t.Some? ==>
      r.content.Some? && |FindAll(r.content.value, name)| == 1 &&
      FindAll(r.content.value, name)[0].tag == name && FindAll(r.content.value, name)[0].children == [] &&
      FindAll(r.content.value, name)[0].text == t
  {
    if r.content.None? then None
    else
      var fields := FindAll(r.content.value, name);
      if |fields| == 1 && fields[0].tag == name && fields[0].children == [] then fields[0].text else None
  }

  /** The integer a reply reports under `name`: its reported text read as a decimal integer. */
  function ReportedCount(r: Response, name: string): Option<int>
  {
    if ReportedText(r, name).None? then None else Text.ParseInt(ReportedText(r, name).value)
  }

  /**
   * `int(get_content_field(name))`: the integer count a list, search-delete
   * or search reply reports. It succeeds exactly when the reply reports a
   * decimal text there; a text that is not a number raises ValueError.
   */
  function CountField(r: Response, name: string, order: IterationOrder): (n: Outcome<int>)
    ensures n.Ok? <==> ReportedCount(r, name).Some?
    ensures n.Ok? ==> n.value == ReportedCount(r, name).value
    ensures ReportedText(r, name).Some? && n.Err? ==> n.error == ValueError
    ensures r.content.Some? && FindAll(r.content.value, name) == [] ==> n == Err(TypeError)
  {
    var v :- ContentField(r, name, order);
    IntOf(v)
  }

  /** `found`: the number of documents returned. */
  function Found(r: Response, order: IterationOrder): (n: Outcome<int>)
    ensures n.Ok? <==> ReportedCount(r, "found").Some?
    ensures n.Ok? ==> n.value == ReportedCount(r, "found").value
  {
    CountField(r, "found", order)
  }

  /** `from_document`: the offset of the first returned document. */
  function FromDocument(r: Response, order: IterationOrder): (n: Outcome<int>)
    ensures n.Ok? <==> ReportedCount(r, "from").Some?
    ensures n.Ok? ==> n.value == ReportedCount(r, "from").value
  {
    CountField(r, "from", order)
  }

  /** `to_document`: the offset past the last returned document. */
  function ToDocument(r: Response, order: IterationOrder): (n: Outcome<int>)
    ensures n.Ok? <==> ReportedCount(r, "to").Some?
    ensures n.Ok? ==> n.value == ReportedCount(r, "to").value
  {
    CountField(r, "to", order)
  }

  /** `hits`: the number of matching (or, for search-delete, deleted) documents. */
  function Hits(r: Response, order: IterationOrder): (n: Outcome<int>)
    ensures n.Ok? <==> ReportedCount(r, "hits").Some?
    ensures n.Ok? ==> n.value == ReportedCount(r, "hits").value
  {
    CountField(r, "hits", order)
  }

  /** `more`: the field reads `=<number>`, so its first character is dropped before the conversion. */
  function More(r: Response, order: IterationOrder): (n: Outcome<int>)
    ensures n.Ok? ==>
      ReportedText(r, "more").Some? &&
      var s := ReportedText(r, "more").value;
      |s| >= 1 && Some(n.value) == Text.ParseInt(s[1..])
    ensures ReportedText(r, "more").Some? && |ReportedText(r, "more").value| >= 1 ==>
      (n.Ok? <==> Text.ParseInt(ReportedText(r, "more").value[1..]).Some?)
  {
    var v :- ContentField(r, "more", order);
    match v
    case DScalar(PyStr(s)) => IntOf(DScalar(PyStr(if |s| == 0 then "" else s[1..])))
    case _ => Err(TypeError)
  }

  /** The value under `key` in a mapping given as its items (the first item with that key). */
  function Lookup(entries: seq<(string, Dv)>, key: string): (r: Option<Dv>)
    ensures r.None? <==> forall i :: 0 <= i < |entries| ==> entries[i].0 != key
    ensures r.Some? ==> (key, r.value) in entries
  {
    if |entries| == 0 then None
    else if entries[0].0 == key then Some(entries[0].1)
    else
      var r := Lookup(entries[1..], key);
      assert forall x <- entries[1..] :: x in entries;
      r
  }

  /** `document['id']`: KeyError on a mapping without it, TypeError on anything but a mapping. */
  function IdOf(document: Dv): (r: Outcome<Dv>)
    ensures !document.DDict? ==> r == Err(TypeError)
    ensures document.DDict? ==> (r.Err? <==> Lookup(document.entries, "id").None?)
    ensures r.Err? && document.DDict? ==> r.error == KeyError("id")
  {
    match document
    case DDict(entries) =>
      (match Lookup(entries, "id")
       case None => Err(KeyError("id"))
       case Some(v) => Ok(v))
    case _ => Err(TypeError)
  }

  /** The id of every document in turn; the error of the first document without one. */
  function IdsOf(documents: seq<Dv>): (r: Outcome<seq<Dv>>)
    ensures r.Ok? <==> forall i :: 0 <= i < |documents| ==> IdOf(documents[i]).Ok?
    ensures r.Ok? ==> |r.value| == |documents|
    ensures r.Ok? ==> forall i :: 0 <= i < |documents| ==> IdOf(documents[i]) == Ok(r.value[i])
    ensures r.Err? ==> exists i :: (0 <= i < |documents| && IdOf(documents[i]).Err? &&
                                    (forall j :: 0 <= j < i ==> IdOf(documents[j]).Ok?) && r == Err(IdOf(documents[i]).error))
  {
    MapResults(documents, IdOf)
  }

  /**
   * `modified_ids`: the `id` of every `document` field; a single document
   * (or no document at all, a None) is treated as a one-element list.
   */
  function ModifiedIds(r: Response, order: IterationOrder): (ids: Outcome<seq<Dv>>)
    ensures ContentField(r, "document", order).Err? ==> ids == Err(ContentField(r, "document", order).error)
    ensures ContentField(r, "document", order).Ok? && !ContentField(r, "document", order).value.DList? ==>
      ids == (match IdOf(ContentField(r, "document", order).value) case Ok(id) => Ok([id]) case Err(e) => Err(e))
    ensures ContentField(r, "document", order).Ok? && ContentField(r, "document", order).value.DList? ==>
      ids == IdsOf(ContentField(r, "document", order).value.items)
  {
    var documents :- ContentField(r, "document", order);
    if documents.DList? then IdsOf(documents.items)
    else
      match IdOf(documents)
      case Err(e) => Err(e)
      case Ok(id) => Ok([id])
  }

  /** A modify reply with one document holding an `id` child reports exactly that id, however dicts iterate. */
  lemma {:induction false} SingleModifiedId(r: Response, doc: Element, id: Element, order: IterationOrder)
    requires r.content.Some? && FindAll(r.content.value, "document") == [doc]
    requires doc.children == [id] && id.tag == "id"
    ensures ModifiedIds(r, order) == Ok([ValueOf(id, order)])
  {
    assert DistinctTags(doc.children);
    assert FirstRepeat(doc.children) == 1;
    assert doc.children[..1] == [id];
    assert Tags([id]) == [PyStr("id")];
    OneKeyOrder(order, PyStr("id"));
    var es := DocEntries(doc, order);
    assert es == [("id", ValueOf(id, order))];
    assert Visited(doc, order) == ArrangeFront(es, 1, [0]);
    assert Visited(doc, order) == [("id", ValueOf(id, order))];
  }

  // ---------------------------------------------------------------------------
  // Documents of list replies

  /**
   * `get_doc_id(root, rel_path)`: follow the path one step at a time; the
   * text of the element reached, or None as soon as a step is missing.
   */
  function GetDocId(root: Element, path: seq<string>): (r: Option<string>)
    ensures path == [] ==> r == root.text
    ensures path != [] && Find(root, path[0]).None? ==> r == None
  {
    if |path| == 0 then root.text
    else match Find(root, path[0])
      case None => None
      case Some(child) => GetDocId(child, path[1..])
  }

  /** Following a path is following its first part and then the rest. */
  lemma {:induction false} GetDocIdAppend(root: Element, a: seq<string>, b: seq<string>)
    ensures GetDocId(root, a + b) ==
      if |a| == 0 then GetDocId(root, b)
      else match Find(root, a[0])
        case None => None
        case Some(child) => GetDocId(child, a[1..] + b)
  {
    if |a| > 0 {
      assert (a + b)[0] == a[0] && (a + b)[1..] == a[1..] + b;
    } else {
      assert a + b == b;
    }
  }

  /**
   * `_get_doc_list`: a lookup reply carries its documents directly in the
   * content; the other list replies carry them as the children of `results`.
   */
  function DocList(r: Response): (docs: Outcome<seq<Element>>)
    ensures r.content.None? ==> docs == Err(AttributeError)
    ensures r.content.Some? && r.kind == LookupResponse ==> docs == Ok(FindAll(r.content.value, "document"))
    ensures r.content.Some? && r.kind != LookupResponse ==>
      match Find(r.content.value, "results")
      case None => docs == Err(TypeError)
      case Some(results) => docs == Ok(results.children)
  {
    match r.content
    case None => Err(AttributeError)
    case Some(c) =>
      if r.kind == LookupResponse then Ok(FindAll(c, "document"))
      else match Find(c, "results")
        case None => Err(TypeError)
        case Some(results) => Ok(results.children)
  }

  /** No later pair has the same key as the pair at `i`. */
  predicate LastKey<K(==), V>(pairs: seq<(K, V)>, i: nat)
    requires i < |pairs|
  {
    forall j :: i < j < |pairs| ==> pairs[j].0 != pairs[i].0
  }

  /** `dict(pairs)`: every key of the pairs, each with the value of its last pair. */
  function DictOf<K(==), V>(pairs: seq<(K, V)>): (m: map<K, V>)
    ensures m.Keys == set i | 0 <= i < |pairs| :: pairs[i].0
    ensures forall i :: 0 <= i < |pairs| && LastKey(pairs, i) ==> pairs[i].0 in m && m[pairs[i].0] == pairs[i].1
  {
    if |pairs| == 0 then map[]
    else
      var init := pairs[..|pairs| - 1];
      var m := DictOf(init);
      DictOfStep(pairs, m);
      m[pairs[|pairs| - 1].0 := pairs[|pairs| - 1].1]
  }

  /** Adding the last pair to the dict of the others. */
  lemma {:induction false} DictOfStep<K, V>(pairs: seq<(K, V)>, m: map<K, V>)
    requires |pairs| > 0
    requires m.Keys == set i | 0 <= i < |pairs| - 1 :: pairs[i].0
    requires forall i :: 0 <= i < |pairs| - 1 && LastKey(pairs[..|pairs| - 1], i) ==> pairs[i].0 in m && m[pairs[i].0] == pairs[i].1
    ensures var n := |pairs| - 1; var m' := m[pairs[n].0 := pairs[n].1];
      m'.Keys == (set i | 0 <= i < |pairs| :: pairs[i].0) &&
      forall i :: 0 <= i < |pairs| && LastKey(pairs, i) ==> pairs[i].0 in m' && m'[pairs[i].0] == pairs[i].1
  {
    var n := |pairs| - 1;
    var m' := m[pairs[n].0 := pairs[n].1];
    forall i | 0 <= i < |pairs| && LastKey(pairs, i)
      ensures pairs[i].0 in m' && m'[pairs[i].0] == pairs[i].1
    {
      if i < n {
        assert LastKey(pairs[..n], i);
      }
    }
  }

  /**
   * `dict(pairs)` when the pairs' keys are `keys`, position by position: its
   * keys are those, and a key no later position repeats holds its pair's value.
   */
  lemma {:induction false} DictOfKeyed<K, V>(pairs: seq<(K, V)>, keys: seq<K>)
    requires |pairs| == |keys| && forall i :: 0 <= i < |keys| ==> pairs[i].0 == keys[i]
    ensures DictOf(pairs).Keys == set i | 0 <= i < |keys| :: keys[i]
    ensures forall i :: 0 <= i < |keys| && (forall j :: i < j < |keys| ==> keys[j] != keys[i]) ==>
      keys[i] in DictOf(pairs) && DictOf(pairs)[keys[i]] == pairs[i].1
  {
    var fromPairs := set i | 0 <= i < |pairs| :: pairs[i].0;
    var fromKeys := set i | 0 <= i < |keys| :: keys[i];
    forall k | k in fromPairs
      ensures k in fromKeys
    {
      var i :| 0 <= i < |pairs| && pairs[i].0 == k;
      assert keys[i] == k;
    }
    forall k | k in fromKeys
      ensures k in fromPairs
    {
      var i :| 0 <= i < |keys| && keys[i] == k;
      assert pairs[i].0 == k;
    }
    forall i | 0 <= i < |keys| && (forall j :: i < j < |keys| ==> keys[j] != keys[i])
      ensures LastKey(pairs, i)
    {
      forall j | i < j < |pairs|
        ensures pairs[j].0 != pairs[i].0
      {
        assert keys[j] != keys[i];
      }
    }
  }

  /** A document in the requested format. */
  datatype Document = AsDict(dict: Dv) | AsTree(tree: Element) | AsText(text: string)

  /** `etree_to_dict(document)['document']`: KeyError unless the document element is tagged `document`. */
  function DocumentDict(document: Element, order: IterationOrder): (r: Outcome<Dv>)
    ensures r.Ok? <==> document.tag == "document"
    ensures r.Ok? ==> r.value == ValueOf(document, order)
    ensures r.Err? ==> r.error == KeyError("document")
  {
    if document.tag == "document" then Ok(ValueOf(document, order)) else Err(KeyError("document"))
  }

  /** One document in the format asked for. */
  function Render(d: Element, format: string, order: IterationOrder, serialise: Element -> string): (r: Outcome<Document>)
    ensures format == "dict" ==> (r.Ok? <==> d.tag == "document") && (r.Ok? ==> r.value == AsDict(ValueOf(d, order)))
    ensures format == "etree" ==> r == Ok(AsTree(d))
    ensures format != "dict" && format != "etree" ==> r == Ok(AsText(serialise(d)))
  {
    if format == "dict" then
      match DocumentDict(d, order)
      case Err(e) => Err(e)
      case Ok(v) => Ok(AsDict(v))
    else if format == "etree" then Ok(AsTree(d))
    else Ok(AsText(serialise(d)))
  }

  /** The id/document pairs in list order, each document in the format asked for. */
  function DocPairs(docs: seq<Element>, idPath: seq<string>, format: string, order: IterationOrder,
                    serialise: Element -> string): (r: Outcome<seq<(Option<string>, Document)>>)
    ensures r.Ok? <==> forall i :: 0 <= i < |docs| ==> Render(docs[i], format, order, serialise).Ok?
    ensures r.Ok? ==> |r.value| == |docs|
    ensures r.Ok? ==> forall i :: 0 <= i < |docs| ==>
      r.value[i] == (GetDocId(docs[i], idPath), Render(docs[i], format, order, serialise).value)
  {
    if |docs| == 0 then Ok([])
    else
      assert forall i :: 1 <= i < |docs| ==> docs[1..][i - 1] == docs[i];
      var d := docs[0];
      var rendered :- Render(d, format, order, serialise);
      var rest :- DocPairs(docs[1..], idPath, format, order, serialise);
      Ok([(GetDocId(d, idPath), rendered)] + rest)
  }

  /** `dict` of pairs keyed by the documents' ids: those ids are its keys, each holding its last document's value. */
  lemma {:induction false} DictOfIds<V>(pairs: seq<(Option<string>, V)>, docs: seq<Element>, idPath: seq<string>)
    requires |pairs| == |docs|
    requires forall i :: 0 <= i < |docs| ==> pairs[i].0 == GetDocId(docs[i], idPath)
    ensures DictOf(pairs).Keys == set d <- docs :: GetDocId(d, idPath)
    ensures forall i :: 0 <= i < |docs| && LastWithId(docs, idPath, i) ==>
      GetDocId(docs[i], idPath) in DictOf(pairs) && DictOf(pairs)[GetDocId(docs[i], idPath)] == pairs[i].1
  {
    var ids := DocIdsOf(docs, idPath);
    forall i, j | 0 <= i < j < |docs| && LastWithId(docs, idPath, i)
      ensures ids[j] != ids[i]
    {
    }
    DictOfKeyed(pairs, ids);
    DocIdsCover(docs, idPath);
  }

  /** The documents' ids, in order. */
  function DocIdsOf(docs: seq<Element>, idPath: seq<string>): (r: seq<Option<string>>)
    ensures |r| == |docs|
    ensures forall i :: 0 <= i < |docs| ==> r[i] == GetDocId(docs[i], idPath)
  {
    seq(|docs|, i requires 0 <= i < |docs| => GetDocId(docs[i], idPath))
  }

  /** The ids listed position by position are the ids of the documents. */
  lemma {:induction false} DocIdsCover(docs: seq<Element>, idPath: seq<string>)
    ensures (set i | 0 <= i < |docs| :: DocIdsOf(docs, idPath)[i]) == set d <- docs :: GetDocId(d, idPath)
  {
    var ids := DocIdsOf(docs, idPath);
    forall d | d in docs
      ensures GetDocId(d, idPath) in set i | 0 <= i < |ids| :: ids[i]
    {
      var i :| 0 <= i < |docs| && docs[i] == d;
      assert ids[i] == GetDocId(d, idPath);
    }
    forall i | 0 <= i < |ids|
      ensures ids[i] in set d <- docs :: GetDocId(d, idPath)
    {
      assert docs[i] in docs;
    }
  }

  /** The format `get_documents` renders in: '', None and 'string' all mean text; anything else is refused. */
  function DocFormat(format: Option<string>): (f: Option<string>)
    ensures f.Some? <==> format.None? || format.value in {"dict", "etree", "", "string"}
    ensures f.Some? ==> f.value in {"dict", "etree", "string"}
    ensures format == Some("dict") ==> f == Some("dict")
    ensures format == Some("etree") ==> f == Some("etree")
  {
    if format == Some("dict") then Some("dict")
    else if format == Some("etree") then Some("etree")
    else if format.None? || format.value in {"", "string"} then Some("string")
    else None
  }

  /** No later document has the same id as the one at `i`. */
  predicate LastWithId(docs: seq<Element>, idPath: seq<string>, i: nat)
    requires i < |docs|
  {
    forall j :: i < j < |docs| ==> GetDocId(docs[j], idPath) != GetDocId(docs[i], idPath)
  }

  /**
   * `get_documents(doc_format)`: documents keyed by id, each id holding its
   * last document, as dicts, trees or serialised text ('' and None also mean
   * text); any other format raises ParameterError before the reply is looked
   * at, and in the dict format a document not tagged `document` raises
   * KeyError.
   */
  function GetDocuments(r: Response, format: Option<string>, order: IterationOrder,
                        serialise: Element -> string): (m: Outcome<map<Option<string>, Document>>)
    ensures DocFormat(format).None? ==> m == Err(ParameterError("doc_format=" + format.value))
    ensures DocFormat(format).Some? ==>
      (m.Ok? <==>
        (DocList(r).Ok? &&
         (DocFormat(format) == Some("dict") ==> forall d <- DocList(r).value :: d.tag == "document")))
  {
    match DocFormat(format)
    case None => Err(ParameterError("doc_format=" + format.value))
    case Some(fmt) =>
      var docs :- DocList(r);
      assert forall d <- docs :: exists i :: 0 <= i < |docs| && docs[i] == d;
      var pairs :- DocPairs(docs, r.idPath, fmt, order, serialise);
      Ok(DictOf(pairs))
  }

  /** The documents are keyed by id, each id holding its last document in the format asked for. */
  lemma {:induction false} GetDocumentsById(r: Response, format: Option<string>, order: IterationOrder, serialise: Element -> string)
    ensures GetDocuments(r, format, order, serialise).Ok? ==>
      var docs := DocList(r).value;
      var m := GetDocuments(r, format, order, serialise).value;
      m.Keys == (set d <- docs :: GetDocId(d, r.idPath)) &&
      forall i :: 0 <= i < |docs| && LastWithId(docs, r.idPath, i) ==>
        GetDocId(docs[i], r.idPath) in m &&
        m[GetDocId(docs[i], r.idPath)] == Render(docs[i], DocFormat(format).value, order, serialise).value
  {
    if GetDocuments(r, format, order, serialise).Ok? {
      var docs := DocList(r).value;
      var pairs := DocPairs(docs, r.idPath, DocFormat(format).value, order, serialise).value;
      assert GetDocuments(r, format, order, serialise).value == DictOf(pairs);
      DocumentsById(docs, r.idPath, DocFormat(format).value, order, serialise);
    }
  }

  /** The documents read one by one and keyed by id: each id holds its last document, rendered. */
  lemma {:induction false} DocumentsById(docs: seq<Element>, idPath: seq<string>, format: string, order: IterationOrder,
                      serialise: Element -> string)
    ensures DocPairs(docs, idPath, format, order, serialise).Ok? ==>
      var m := DictOf(DocPairs(docs, idPath, format, order, serialise).value);
      m.Keys == (set d <- docs :: GetDocId(d, idPath)) &&
      forall i :: 0 <= i < |docs| && LastWithId(docs, idPath, i) ==>
        GetDocId(docs[i], idPath) in m &&
        m[GetDocId(docs[i], idPath)] == Render(docs[i], format, order, serialise).value
  {
    if DocPairs(docs, idPath, format, order, serialise).Ok? {
      DictOfIds(DocPairs(docs, idPath, format, order, serialise).value, docs, idPath);
    }
  }

  // ---------------------------------------------------------------------------
  // Facets, aggregates, words, alternatives, paths

  /** `element.attrib[key]`: KeyError when the attribute is absent. */
  function Attr(e: Element, key: string): (r: Outcome<string>)
    ensures r.Ok? <==> key in e.attrib
    ensures r.Ok? ==> r.value == e.attrib[key]
    ensures r.Err? ==> r.error == KeyError(key)
  {
    if key in e.attrib then Ok(e.attrib[key]) else Err(KeyError(key))
  }

  /** The content element, or AttributeError for a reply without one. */
  function Content(r: Response): (c: Outcome<Element>)
    ensures c.Ok? <==> r.content.Some?
    ensures c.Ok? ==> c.value == r.content.value
    ensures c.Err? ==> c.error == AttributeError
  {
    match r.content
    case None => Err(AttributeError)
    case Some(c) => Ok(c)
  }

  /** The value of an attribute, None when the element lacks it. */
  function AttrOf(e: Element, name: string): (r: Option<string>)
    ensures r.Some? <==> name in e.attrib
    ensures r.Some? ==> r.value == e.attrib[name]
  {
    if name in e.attrib then Some(e.attrib[name]) else None
  }

  /** The text of the first child with the tag, None when there is no such child. */
  function ChildTextOf(e: Element, tag: string): (r: Option<Option<string>>)
    ensures r.Some? <==> Find(e, tag).Some?
    ensures r.Some? ==> r.value == Find(e, tag).value.text
  {
    match Find(e, tag)
    case None => None
    case Some(c) => Some(c.text)
  }

  /** No later element has the same value of the attribute as the one at `i`. */
  predicate LastWithAttr(es: seq<Element>, i: nat, name: string)
    requires i < |es|
  {
    forall j :: i < j < |es| ==> AttrOf(es[j], name) != AttrOf(es[i], name)
  }

  /** No later element has the same text as the one at `i`. */
  predicate LastWithText(es: seq<Element>, i: nat)
    requires i < |es|
  {
    forall j :: i < j < |es| ==> es[j].text != es[i].text
  }

  /** No later element has the same text in its first child with the tag as the one at `i`. */
  predicate LastWithChildText(es: seq<Element>, i: nat, tag: string)
    requires i < |es|
  {
    forall j :: i < j < |es| ==> ChildTextOf(es[j], tag) != ChildTextOf(es[i], tag)
  }

  /** The texts of the elements, in order. */
  function TextsOf(es: seq<Element>): (r: seq<Option<string>>)
    ensures |r| == |es|
    ensures forall i :: 0 <= i < |es| ==> r[i] == es[i].text
  {
    seq(|es|, i requires 0 <= i < |es| => es[i].text)
  }

  /** `dict` of pairs keyed by the elements' texts: those texts are its keys, each holding its last element's value. */
  lemma {:induction false} DictOfTexts<V>(pairs: seq<(Option<string>, V)>, es: seq<Element>)
    requires |pairs| == |es| && forall i :: 0 <= i < |es| ==> pairs[i].0 == es[i].text
    ensures DictOf(pairs).Keys == set i | 0 <= i < |es| :: es[i].text
    ensures forall i :: 0 <= i < |es| && LastWithText(es, i) ==>
      es[i].text in DictOf(pairs) && DictOf(pairs)[es[i].text] == pairs[i].1
  {
    DictOfKeyed(pairs, TextsOf(es));
  }

  /** The values of an attribute every element carries, in order. */
  function AttrValues(es: seq<Element>, name: string): (r: seq<string>)
    requires forall i :: 0 <= i < |es| ==> name in es[i].attrib
    ensures |r| == |es|
    ensures forall i :: 0 <= i < |es| ==> r[i] == es[i].attrib[name]
  {
    seq(|es|, i requires 0 <= i < |es| => es[i].attrib[name])
  }

  /** `dict` of pairs keyed by an attribute of the elements: its values are the keys, each holding its last element's value. */
  lemma {:induction false} DictOfAttrs<V>(pairs: seq<(string, V)>, es: seq<Element>, name: string)
    requires |pairs| == |es| && forall i :: 0 <= i < |es| ==> name in es[i].attrib && pairs[i].0 == es[i].attrib[name]
    ensures DictOf(pairs).Keys == set i | 0 <= i < |es| :: es[i].attrib[name]
    ensures forall i :: 0 <= i < |es| && LastWithAttr(es, i, name) ==>
      es[i].attrib[name] in DictOf(pairs) && DictOf(pairs)[es[i].attrib[name]] == pairs[i].1
  {
    var keys := AttrValues(es, name);
    forall i, j | 0 <= i < j < |es| && LastWithAttr(es, i, name)
      ensures keys[j] != keys[i]
    {
      assert AttrOf(es[j], name) != AttrOf(es[i], name);
    }
    DictOfKeyed(pairs, keys);
  }

  /** `dict` of pairs keyed by the text of a child of the elements: those texts are its keys, each holding its last element's value. */
  lemma {:induction false} DictOfChildTexts<V>(pairs: seq<(Option<string>, V)>, es: seq<Element>, tag: string)
    requires |pairs| == |es| && forall i :: 0 <= i < |es| ==> Find(es[i], tag).Some? && pairs[i].0 == Find(es[i], tag).value.text
    ensures DictOf(pairs).Keys == set i | 0 <= i < |es| :: Find(es[i], tag).value.text
    ensures forall i :: 0 <= i < |es| && LastWithChildText(es, i, tag) ==>
      Find(es[i], tag).value.text in DictOf(pairs) && DictOf(pairs)[Find(es[i], tag).value.text] == pairs[i].1
  {
    var keys := seq(|es|, i requires 0 <= i < |es| => pairs[i].0);
    DictOfKeyed(pairs, keys);
    forall i, j | 0 <= i < j < |es| && LastWithChildText(es, i, tag)
      ensures keys[j] != keys[i]
    {
      assert ChildTextOf(es[j], tag) != ChildTextOf(es[i], tag);
    }
  }

  /** The term carries a `hits` attribute that reads as an integer. */
  predicate HitsReadable(term: Element)
  {
    "hits" in term.attrib && Text.ParseInt(term.attrib["hits"]).Some?
  }

  /** One term's text and its `hits` attribute as an integer (KeyError without it, ValueError when it is no number). */
  function TermHit(term: Element): (r: Outcome<(Option<string>, int)>)
    ensures r.Ok? <==> HitsReadable(term)
    ensures r.Ok? ==> r.value == (term.text, Text.ParseInt(term.attrib["hits"]).value)
    ensures "hits" !in term.attrib ==> r == Err(KeyError("hits"))
  {
    var hits :- Attr(term, "hits");
    var n :- IntOf(DScalar(PyStr(hits)));
    Ok((term.text, n))
  }

  /** One facet's terms: each term's text with its `hits` attribute as an integer. */
  function TermHits(terms: seq<Element>): (r: Outcome<seq<(Option<string>, int)>>)
    ensures r.Ok? <==> forall i :: 0 <= i < |terms| ==> HitsReadable(terms[i])
    ensures r.Ok? ==> |r.value| == |terms|
    ensures r.Ok? ==> forall i :: 0 <= i < |terms| ==>
      r.value[i] == (terms[i].text, Text.ParseInt(terms[i].attrib["hits"]).value)
  {
    if |terms| == 0 then Ok([])
    else
      assert forall i :: 1 <= i < |terms| ==> terms[1..][i - 1] == terms[i];
      var first :- TermHit(terms[0]);
      var rest :- TermHits(terms[1..]);
      Ok([first] + rest)
  }

  /** Every term of the facet carries a readable `hits` attribute. */
  predicate TermsReadable(facet: Element)
  {
    forall t <- FindAll(facet, "term") :: HitsReadable(t)
  }

  /** One facet's path and the hit counts of its terms (KeyError without a path). */
  function FacetPair(facet: Element): (r: Outcome<(string, map<Option<string>, int>)>)
    ensures r.Ok? <==> "path" in facet.attrib && TermsReadable(facet)
    ensures r.Ok? ==> r.value.0 == facet.attrib["path"]
    ensures "path" !in facet.attrib ==> r == Err(KeyError("path"))
  {
    var path :- Attr(facet, "path");
    var terms := FindAll(facet, "term");
    assert forall t <- terms :: exists i :: 0 <= i < |terms| && terms[i] == t;
    var hits :- TermHits(terms);
    Ok((path, DictOf(hits)))
  }

  /** Every term text of a facet is a key, holding the hits of the last term with that text. */
  lemma {:induction false} FacetPairHits(facet: Element)
    ensures FacetPair(facet).Ok? ==>
      var terms := FindAll(facet, "term");
      var hits := FacetPair(facet).value.1;
      hits.Keys == (set i | 0 <= i < |terms| :: terms[i].text) &&
      forall i :: 0 <= i < |terms| && LastWithText(terms, i) ==>
        terms[i].text in hits && hits[terms[i].text] == Text.ParseInt(terms[i].attrib["hits"]).value
  {
    if FacetPair(facet).Ok? {
      var terms := FindAll(facet, "term");
      assert FacetPair(facet).value.1 == DictOf(TermHits(terms).value);
      DictOfTexts(TermHits(terms).value, terms);
    }
  }

  function FacetPairs(facets: seq<Element>): (r: Outcome<seq<(string, map<Option<string>, int>)>>)
    ensures r.Ok? <==> forall i :: 0 <= i < |facets| ==> FacetPair(facets[i]).Ok?
    ensures r.Ok? ==> |r.value| == |facets|
    ensures r.Ok? ==> forall i :: 0 <= i < |facets| ==> FacetPair(facets[i]).Ok? && r.value[i] == FacetPair(facets[i]).value
    ensures r.Ok? ==> forall i :: 0 <= i < |facets| ==> "path" in facets[i].attrib
  {
    var r := MapResults(facets, FacetPair);
    assert r.Ok? ==> forall i :: 0 <= i < |facets| ==> FacetPair(facets[i]).Ok?;
    r
  }

  /** SearchResponse `get_facets`: the facets keyed by path (AttributeError without content). */
  function SearchFacets(r: Response): (m: Outcome<map<string, map<Option<string>, int>>>)
    ensures r.content.None? ==> m == Err(AttributeError)
    ensures r.content.Some? ==> (m.Ok? <==> forall f <- FindAll(r.content.value, "facet") :: FacetPair(f).Ok?)
  {
    var c :- Content(r);
    var facets := FindAll(c, "facet");
    assert forall f <- facets :: exists i :: 0 <= i < |facets| && facets[i] == f;
    var pairs :- FacetPairs(facets);
    Ok(DictOf(pairs))
  }

  /** Every facet path is a key, holding the term hit counts of the last facet with that path. */
  lemma {:induction false} SearchFacetsByPath(r: Response)
    ensures SearchFacets(r).Ok? ==>
      var facets := FindAll(r.content.value, "facet");
      var m := SearchFacets(r).value;
      FacetPairs(facets).Ok? &&
      m.Keys == (set i | 0 <= i < |facets| :: facets[i].attrib["path"]) &&
      forall i :: 0 <= i < |facets| && LastWithAttr(facets, i, "path") ==>
        facets[i].attrib["path"] in m && m[facets[i].attrib["path"]] == FacetPair(facets[i]).value.1
  {
    if SearchFacets(r).Ok? {
      var facets := FindAll(r.content.value, "facet");
      assert SearchFacets(r).value == DictOf(FacetPairs(facets).value);
      FacetsByPath(facets);
    }
  }

  /** The facets read one by one and keyed by path: each path holds the hit counts of its last facet. */
  lemma {:induction false} FacetsByPath(facets: seq<Element>)
    ensures FacetPairs(facets).Ok? ==>
      var m := DictOf(FacetPairs(facets).value);
      m.Keys == (set i | 0 <= i < |facets| :: facets[i].attrib["path"]) &&
      forall i :: 0 <= i < |facets| && LastWithAttr(facets, i, "path") ==>
        facets[i].attrib["path"] in m && m[facets[i].attrib["path"]] == FacetPair(facets[i]).value.1
  {
    if FacetPairs(facets).Ok? {
      DictOfAttrs(FacetPairs(facets).value, facets, "path");
    }
  }

  /** `get_aggregate` as written: the name `dic` is unbound, so every call raises NameError. */
  function AggregateAsWritten(r: Response): (m: Outcome<map<Option<string>, Option<string>>>)
    ensures m == Err(NameError("dic"))
  {
    Err(NameError("dic"))
  }

  function AggregatePairs(aggregates: seq<Element>): (r: Outcome<seq<(Option<string>, Option<string>)>>)
    ensures r.Ok? <==> forall i :: 0 <= i < |aggregates| ==>
      Find(aggregates[i], "query").Some? && Find(aggregates[i], "data").Some?
    ensures r.Ok? ==> |r.value| == |aggregates|
    ensures r.Ok? ==> forall i :: 0 <= i < |aggregates| ==>
      r.value[i] == (Find(aggregates[i], "query").value.text, Find(aggregates[i], "data").value.text)
    ensures r.Err? ==> r.error == AttributeError
  {
    if |aggregates| == 0 then Ok([])
    else
      assert forall i :: 1 <= i < |aggregates| ==> aggregates[1..][i - 1] == aggregates[i];
      var query :- ChildText(aggregates[0], "query");
      var data :- ChildText(aggregates[0], "data");
      var rest :- AggregatePairs(aggregates[1..]);
      Ok([(query, data)] + rest)
  }

  /** `get_aggregate` with `dict`: the aggregates' data keyed by query (AttributeError for a missing part). */
  function Aggregate(r: Response): (m: Outcome<map<Option<string>, Option<string>>>)
    ensures r.content.None? ==> m == Err(AttributeError)
    ensures r.content.Some? ==>
      (m.Ok? <==> forall a <- FindAll(r.content.value, "aggregate") :: Find(a, "query").Some? && Find(a, "data").Some?)
    ensures m.Err? ==> m.error == AttributeError
  {
    var c :- Content(r);
    var aggregates := FindAll(c, "aggregate");
    assert forall a <- aggregates :: exists i :: 0 <= i < |aggregates| && aggregates[i] == a;
    var pairs :- AggregatePairs(aggregates);
    Ok(DictOf(pairs))
  }

  /** Every aggregate's query text is a key, holding the data text of the last aggregate with that query. */
  lemma {:induction false} AggregateByQuery(r: Response)
    ensures Aggregate(r).Ok? ==>
      var aggregates := FindAll(r.content.value, "aggregate");
      var m := Aggregate(r).value;
      m.Keys == (set i | 0 <= i < |aggregates| :: Find(aggregates[i], "query").value.text) &&
      forall i :: 0 <= i < |aggregates| && LastWithChildText(aggregates, i, "query") ==>
        Find(aggregates[i], "query").value.text in m &&
        m[Find(aggregates[i], "query").value.text] == Find(aggregates[i], "data").value.text
  {
    if Aggregate(r).Ok? {
      var aggregates := FindAll(r.content.value, "aggregate");
      assert Aggregate(r).value == DictOf(AggregatePairs(aggregates).value);
      AggregatesByQuery(aggregates);
    }
  }

  /** The aggregates read one by one and keyed by query text: each query holds the data text of its last aggregate. */
  lemma {:induction false} AggregatesByQuery(aggregates: seq<Element>)
    ensures AggregatePairs(aggregates).Ok? ==>
      var m := DictOf(AggregatePairs(aggregates).value);
      m.Keys == (set i | 0 <= i < |aggregates| :: Find(aggregates[i], "query").value.text) &&
      forall i :: 0 <= i < |aggregates| && LastWithChildText(aggregates, i, "query") ==>
        Find(aggregates[i], "query").value.text in m &&
        m[Find(aggregates[i], "query").value.text] == Find(aggregates[i], "data").value.text
  {
    if AggregatePairs(aggregates).Ok? {
      DictOfChildTexts(AggregatePairs(aggregates).value, aggregates, "query");
    }
  }

  /** The two differ only in the name lookup: the corrected form never raises NameError. */
  lemma {:induction false} AggregateNeverNameError(r: Response)
    ensures AggregateAsWritten(r).Err? && AggregateAsWritten(r).error.NameError?
    ensures Aggregate(r).Err? ==> !Aggregate(r).error.NameError?
  {
  }

  /** A list's words: each word's text with its `count` attribute (kept as text). */
  function WordCounts(words: seq<Element>): (r: Outcome<seq<(Option<string>, string)>>)
    ensures r.Ok? <==> forall i :: 0 <= i < |words| ==> "count" in words[i].attrib
    ensures r.Ok? ==> |r.value| == |words|
    ensures r.Ok? ==> forall i :: 0 <= i < |words| ==> r.value[i] == (words[i].text, words[i].attrib["count"])
  {
    if |words| == 0 then Ok([])
    else
      assert forall i :: 1 <= i < |words| ==> words[1..][i - 1] == words[i];
      var count :- Attr(words[0], "count");
      var rest :- WordCounts(words[1..]);
      Ok([(words[0].text, count)] + rest)
  }

  /** Every word of the list carries a `count` attribute. */
  predicate WordsCounted(list: Element)
  {
    forall w <- FindAll(list, "word") :: "count" in w.attrib
  }

  /** One list's `to` attribute and its word counts (KeyError for a missing attribute). */
  function WordList(list: Element): (r: Outcome<(string, map<Option<string>, string>)>)
    ensures r.Ok? <==> "to" in list.attrib && WordsCounted(list)
    ensures r.Ok? ==> r.value.0 == list.attrib["to"]
    ensures "to" !in list.attrib ==> r == Err(KeyError("to"))
  {
    var to :- Attr(list, "to");
    var words := FindAll(list, "word");
    assert forall w <- words :: exists i :: 0 <= i < |words| && words[i] == w;
    var counts :- WordCounts(words);
    Ok((to, DictOf(counts)))
  }

  /** Every word text of a list is a key, holding the `count` of the last word with that text. */
  lemma {:induction false} WordListCounts(list: Element)
    ensures WordList(list).Ok? ==>
      var words := FindAll(list, "word");
      var counts := WordList(list).value.1;
      counts.Keys == (set i | 0 <= i < |words| :: words[i].text) &&
      forall i :: 0 <= i < |words| && LastWithText(words, i) ==>
        words[i].text in counts && counts[words[i].text] == words[i].attrib["count"]
  {
    if WordList(list).Ok? {
      var words := FindAll(list, "word");
      assert WordList(list).value.1 == DictOf(WordCounts(words).value);
      DictOfTexts(WordCounts(words).value, words);
    }
  }

  function WordLists(lists: seq<Element>): (r: Outcome<seq<(string, map<Option<string>, string>)>>)
    ensures r.Ok? <==> forall i :: 0 <= i < |lists| ==> WordList(lists[i]).Ok?
    ensures r.Ok? ==> forall i :: 0 <= i < |lists| ==> "to" in lists[i].attrib
    ensures r.Ok? ==> |r.value| == |lists|
    ensures r.Ok? ==> forall i :: 0 <= i < |lists| ==> r.value[i] == WordList(lists[i]).value
  {
    if |lists| == 0 then Ok([])
    else
      assert forall i :: 1 <= i < |lists| ==> lists[1..][i - 1] == lists[i];
      var first :- WordList(lists[0]);
      var rest :- WordLists(lists[1..]);
      Ok([first] + rest)
  }

  /** `get_words`: the lists' word counts keyed by `to` (AttributeError without content). */
  function Words(r: Response): (m: Outcome<map<string, map<Option<string>, string>>>)
    ensures r.content.None? ==> m == Err(AttributeError)
    ensures r.content.Some? ==> (m.Ok? <==> forall l <- FindAll(r.content.value, "list") :: WordList(l).Ok?)
  {
    var c :- Content(r);
    var lists := FindAll(c, "list");
    assert forall l <- lists :: exists i :: 0 <= i < |lists| && lists[i] == l;
    var pairs :- WordLists(lists);
    Ok(DictOf(pairs))
  }

  /** Every list's `to` is a key, holding the word counts of the last list with that `to`. */
  lemma {:induction false} WordsByList(r: Response)
    ensures Words(r).Ok? ==>
      var lists := FindAll(r.content.value, "list");
      var m := Words(r).value;
      WordLists(lists).Ok? &&
      m.Keys == (set i | 0 <= i < |lists| :: lists[i].attrib["to"]) &&
      forall i :: 0 <= i < |lists| && LastWithAttr(lists, i, "to") ==>
        lists[i].attrib["to"] in m && m[lists[i].attrib["to"]] == WordList(lists[i]).value.1
  {
    if Words(r).Ok? {
      var lists := FindAll(r.content.value, "list");
      assert Words(r).value == DictOf(WordLists(lists).value);
      ListsByTo(lists);
    }
  }

  /** The word lists read one by one and keyed by `to`: each `to` holds the word counts of its last list. */
  lemma {:induction false} ListsByTo(lists: seq<Element>)
    ensures WordLists(lists).Ok? ==>
      var m := DictOf(WordLists(lists).value);
      m.Keys == (set i | 0 <= i < |lists| :: lists[i].attrib["to"]) &&
      forall i :: 0 <= i < |lists| && LastWithAttr(lists, i, "to") ==>
        lists[i].attrib["to"] in m && m[lists[i].attrib["to"]] == WordList(lists[i]).value.1
  {
    if WordLists(lists).Ok? {
      DictOfAttrs(WordLists(lists).value, lists, "to");
    }
  }

  /** One search term's alternatives: how often the term occurs, and each alternative word's attributes. */
  datatype Alternatives = Alternatives(count: int, words: map<Option<string>, map<string, string>>)

  function WordAttribs(words: seq<Element>): (r: seq<(Option<string>, map<string, string>)>)
    ensures |r| == |words|
    ensures forall i :: 0 <= i < |words| ==> r[i] == (words[i].text, words[i].attrib)
  {
    seq(|words|, i requires 0 <= i < |words| => (words[i].text, words[i].attrib))
  }

  /** The `alternatives` element has a `to` child, and a `count` child whose text reads as an integer. */
  predicate AlternativeReadable(a: Element)
  {
    Find(a, "to").Some? && Find(a, "count").Some? && Find(a, "count").value.text.Some? &&
    Text.ParseInt(Find(a, "count").value.text.value).Some?
  }

  /**
   * One term's alternatives: its `to` text and its `count` as an integer; a
   * missing child raises AttributeError, a count without text TypeError, a
   * count that is no number ValueError.
   */
  function AlternativePair(a: Element): (r: Outcome<(Option<string>, Alternatives)>)
    ensures r.Ok? <==> AlternativeReadable(a)
    ensures r.Ok? ==> r.value.0 == Find(a, "to").value.text
    ensures r.Ok? ==> r.value.1.count == Text.ParseInt(Find(a, "count").value.text.value).value
    ensures Find(a, "to").None? || Find(a, "count").None? ==> r == Err(AttributeError)
    ensures Find(a, "to").Some? && Find(a, "count").Some? && Find(a, "count").value.text.None? ==> r == Err(TypeError)
    ensures (Find(a, "to").Some? && Find(a, "count").Some? && Find(a, "count").value.text.Some? &&
             Text.ParseInt(Find(a, "count").value.text.value).None?) ==> r == Err(ValueError)
  {
    var to :- ChildText(a, "to");
    var countText :- ChildText(a, "count");
    var count :- IntOf(if countText.None? then DScalar(PyNone) else DScalar(PyStr(countText.value)));
    Ok((to, Alternatives(count, DictOf(WordAttribs(FindAll(a, "word"))))))
  }

  /** Every alternative word's text is a key, holding the attributes of the last word with that text. */
  lemma {:induction false} AlternativePairWords(a: Element)
    ensures AlternativePair(a).Ok? ==>
      var words := FindAll(a, "word");
      var ws := AlternativePair(a).value.1.words;
      ws.Keys == (set i | 0 <= i < |words| :: words[i].text) &&
      forall i :: 0 <= i < |words| && LastWithText(words, i) ==>
        words[i].text in ws && ws[words[i].text] == words[i].attrib
  {
    if AlternativePair(a).Ok? {
      var words := FindAll(a, "word");
      var pairs := WordAttribs(words);
      var ws := AlternativePair(a).value.1.words;
      assert ws == DictOf(pairs);
      DictOfTexts(pairs, words);
      forall i | 0 <= i < |words| && LastWithText(words, i)
        ensures words[i].text in ws && ws[words[i].text] == words[i].attrib
      {
        assert pairs[i].1 == words[i].attrib;
      }
    }
  }

  function AlternativePairs(alts: seq<Element>): (r: Outcome<seq<(Option<string>, Alternatives)>>)
    ensures r.Ok? <==> forall i :: 0 <= i < |alts| ==> AlternativePair(alts[i]).Ok?
    ensures r.Ok? ==> |r.value| == |alts|
    ensures r.Ok? ==> forall i :: 0 <= i < |alts| ==> AlternativePair(alts[i]).Ok? && r.value[i] == AlternativePair(alts[i]).value
  {
    if |alts| == 0 then Ok([])
    else
      assert forall i :: 1 <= i < |alts| ==> alts[1..][i - 1] == alts[i];
      var first :- AlternativePair(alts[0]);
      var rest :- AlternativePairs(alts[1..]);
      Ok([first] + rest)
  }

  /**
   * `get_alternatives`: the `alternatives` children of `alternatives_list`
   * keyed by their `to` text (AttributeError without content or list).
   */
  function GetAlternatives(r: Response): (m: Outcome<map<Option<string>, Alternatives>>)
    ensures r.content.None? ==> m == Err(AttributeError)
    ensures r.content.Some? && Find(r.content.value, "alternatives_list").None? ==> m == Err(AttributeError)
    ensures r.content.Some? && Find(r.content.value, "alternatives_list").Some? ==>
      (m.Ok? <==> forall a <- FindAll(Find(r.content.value, "alternatives_list").value, "alternatives") :: AlternativeReadable(a))
  {
    var c :- Content(r);
    match Find(c, "alternatives_list")
    case None => Err(AttributeError)
    case Some(list) =>
      var alts := FindAll(list, "alternatives");
      assert forall a <- alts :: exists i :: 0 <= i < |alts| && alts[i] == a;
      var pairs :- AlternativePairs(alts);
      Ok(DictOf(pairs))
  }

  /** Every term's `to` text is a key, holding the alternatives of the last term with that text. */
  lemma {:induction false} GetAlternativesByTerm(r: Response)
    ensures GetAlternatives(r).Ok? ==>
      r.content.Some? && Find(r.content.value, "alternatives_list").Some? &&
      var alts := FindAll(Find(r.content.value, "alternatives_list").value, "alternatives");
      AlternativePairs(alts).Ok? &&
      var m := GetAlternatives(r).value;
      m.Keys == (set i | 0 <= i < |alts| :: Find(alts[i], "to").value.text) &&
      forall i :: 0 <= i < |alts| && LastWithChildText(alts, i, "to") ==>
        Find(alts[i], "to").value.text in m && m[Find(alts[i], "to").value.text] == AlternativePair(alts[i]).value.1
  {
    if GetAlternatives(r).Ok? {
      var alts := FindAll(Find(r.content.value, "alternatives_list").value, "alternatives");
      assert GetAlternatives(r).value == DictOf(AlternativePairs(alts).value);
      AlternativesByTerm(alts);
    }
  }

  /** The terms' alternatives read one by one and keyed by `to` text: each text holds its last term's alternatives. */
  lemma {:induction false} AlternativesByTerm(alts: seq<Element>)
    ensures AlternativePairs(alts).Ok? ==>
      var m := DictOf(AlternativePairs(alts).value);
      m.Keys == (set i | 0 <= i < |alts| :: Find(alts[i], "to").value.text) &&
      forall i :: 0 <= i < |alts| && LastWithChildText(alts, i, "to") ==>
        Find(alts[i], "to").value.text in m && m[Find(alts[i], "to").value.text] == AlternativePair(alts[i]).value.1
  {
    if AlternativePairs(alts).Ok? {
      DictOfChildTexts(AlternativePairs(alts).value, alts, "to");
    }
  }

  function FacetTerms(facets: seq<Element>): (r: Outcome<seq<(string, seq<Option<string>>)>>)
    ensures r.Ok? <==> forall i :: 0 <= i < |facets| ==> "path" in facets[i].attrib
    ensures r.Ok? ==> |r.value| == |facets|
    ensures r.Ok? ==> forall i :: 0 <= i < |facets| ==>
      r.value[i] == (facets[i].attrib["path"], TextsOf(FindAll(facets[i], "term")))
    ensures r.Err? ==> r.error == KeyError("path")
  {
    if |facets| == 0 then Ok([])
    else
      assert forall i :: 1 <= i < |facets| ==> facets[1..][i - 1] == facets[i];
      var path :- Attr(facets[0], "path");
      var rest :- FacetTerms(facets[1..]);
      Ok([(path, TextsOf(FindAll(facets[0], "term")))] + rest)
  }

  /** ListFacetsResponse `get_facets`: the facets' term texts keyed by path (AttributeError without content). */
  function ListFacets(r: Response): (m: Outcome<map<string, seq<Option<string>>>>)
    ensures r.content.None? ==> m == Err(AttributeError)
    ensures r.content.Some? ==>
      (m.Ok? <==> forall f <- FindAll(r.content.value, "facet") :: "path" in f.attrib)
    ensures r.content.Some? && m.Err? ==> m.error == KeyError("path")
  {
    var c :- Content(r);
    var facets := FindAll(c, "facet");
    assert forall f <- facets :: exists i :: 0 <= i < |facets| && facets[i] == f;
    var pairs :- FacetTerms(facets);
    Ok(DictOf(pairs))
  }

  /** Every facet path is a key, holding the texts of the terms, in order, of the last facet with that path. */
  lemma {:induction false} ListFacetsByPath(r: Response)
    ensures ListFacets(r).Ok? ==>
      var facets := FindAll(r.content.value, "facet");
      var m := ListFacets(r).value;
      m.Keys == (set i | 0 <= i < |facets| :: facets[i].attrib["path"]) &&
      forall i :: 0 <= i < |facets| && LastWithAttr(facets, i, "path") ==>
        facets[i].attrib["path"] in m && m[facets[i].attrib["path"]] == TextsOf(FindAll(facets[i], "term"))
  {
    if ListFacets(r).Ok? {
      var facets := FindAll(r.content.value, "facet");
      assert ListFacets(r).value == DictOf(FacetTerms(facets).value);
      FacetTermsByPath(facets);
    }
  }

  /** The facets' term lists read one by one and keyed by path: each path holds the term texts of its last facet. */
  lemma {:induction false} FacetTermsByPath(facets: seq<Element>)
    ensures FacetTerms(facets).Ok? ==>
      var m := DictOf(FacetTerms(facets).value);
      m.Keys == (set i | 0 <= i < |facets| :: facets[i].attrib["path"]) &&
      forall i :: 0 <= i < |facets| && LastWithAttr(facets, i, "path") ==>
        facets[i].attrib["path"] in m && m[facets[i].attrib["path"]] == TextsOf(FindAll(facets[i], "term"))
  {
    if FacetTerms(facets).Ok? {
      DictOfAttrs(FacetTerms(facets).value, facets, "path");
    }
  }

  /** `get_paths`: the texts of the `path` children of `paths`, in order. */
  function GetPaths(r: Response): (p: Outcome<seq<Option<string>>>)
    ensures p.Ok? <==> r.content.Some? && Find(r.content.value, "paths").Some?
    ensures p.Ok? ==>
      var paths := FindAll(Find(r.content.value, "paths").value, "path");
      |p.value| == |paths| && forall i :: 0 <= i < |paths| ==> p.value[i] == paths[i].text
  {
    var c :- Content(r);
    match Find(c, "paths")
    case None => Err(AttributeError)
    case Some(paths) =>
      Ok(TextsOf(FindAll(paths, "path")))
  }
}
