# pycps client core in Dafny

This project models the core of the Clusterpoint Python client (`pycps`): the
part that decides which XML text is sent to a Clusterpoint storage and how the
reply is read back. It has five parts:

- **Requests** (`requests.dfy`, class `Request`). The setters fill the content
  table. `set_documents` converts each document, puts it under the document
  root tag and writes its id at the id path. `get_xml_request` turns all of
  this into the `cps:request` envelope.
- **Query terms** (`query.dfy`). `term` escapes a term and nests it in the tags
  of a slash path. `terms_from_dict` builds a query from a nested mapping.
  `and_terms`, `or_terms` and `not_term` combine terms.
- **Responses** (`responses.dfy`). The command name picks the response view.
  Server errors are sorted into fatal and warning. Content fields are looked
  up as none, one or many. Documents are read by id, and counts, facets,
  words, aggregates, alternatives and paths are read out.
- **Converters** (`converters.dfy`). `etree_to_dict` turns an element tree into
  nested mappings and lists. `dict_to_etree` goes back the other way.
  `to_etree` and `to_raw_xml` dispatch on the kind of document.
- **Connection** (`connections.dfy`, class `Connection`). Opening the HTTP
  connection, and sending a request with one reopen and resend on a stale
  connection.

Supporting modules:

- `wrappers.dfy`: Option and Result.
- `errors.dfy`: the client's exceptions as one datatype.
- `text.dfy`: split, join, `lower`, `str` and `int` of integers.
- `values.dfy`: Python scalars with `str()` and truth testing.
- `xml.dfy`: elements as values, with `find` and `findall`.
- `dicts.dfy`: Python 2 dict iteration order, and rearranging a sequence by it.

Element trees are values. An operation that changes a tree in place returns
the changed tree instead. The XML parser and serialiser are function
parameters: `parse` may fail, and `serialise` always succeeds. The HTTP
transport is a script fixed in advance. It says whether the n-th attempt to
open a connection succeeds and how the n-th send attempt ends.

The client runs on Python 2, whose dicts iterate in an order fixed by the
keys' hashes and the history of insertions, not in insertion order. The
model takes that order as a parameter wherever it reaches the output:

- `Dicts.IterationOrder` maps the keys of a dict, in the order they were
  inserted, to the positions of those keys in the order the dict visits
  them. It is any arrangement of the positions. `Dicts.InsertionOrder` is
  the order of Python 3.7 and later.
- The dicts `etree_to_dict` builds are visited in that order. That affects
  its mappings, the start of its lists and so the round trip through
  `dict_to_etree`. The dict `set_documents` builds from keyed documents, and
  the one `dict.fromkeys` builds in `set_doc_ids`, are visited the same way.
- A dict the caller hands in (a mapping given to `dict_to_etree`,
  `terms_from_dict` or `set_list`, or keyed documents) is given as its items
  in the order it iterates them.
- The content table of `get_xml_request` is a map together with its
  iteration order.
- The HTTP headers and the dicts a response accessor returns are maps, since
  their order carries no meaning.

## Model

| member | source | states |
|---|---|---|
| Requests.EnvelopeOrder | pycps/request.py:278-295 | The envelope's elements are exactly the present ones, in the fixed order storage, request_id, application, command, user, password, timeout, type. Storage, command, user and password are always present. |
| Requests.ElementTags | pycps/request.py:278-295 | The written tags are storage, then request_id if the id is truthy and application if it is set, then command, user and password, then timeout if truthy and type if set. |
| Requests.CanonicalTags | pycps/request.py:278-295 | Filtering the canonical order by presence gives that same tag list. |
| Requests.PresentSettings | pycps/request.py:283-295 | Which optional settings make their element present: a truthy request id or timeout, a non-empty application or type. |
| Requests.EnvelopeEnd | pycps/request.py:296-301 | The request ends with the content block and `</cps:request>`. The block is `<cps:content/>` exactly when the content string is empty. |
| Requests.EnvelopeIgnoresTimestampAndCharset | pycps/request.py:281-286 | The timestamp and the reply charset never change the request text. |
| Requests.FieldPiecesMeaning | pycps/request.py:313-316 | Every piece is the tag of a truthy item, and every truthy item writes its tag. |
| Requests.TruthyTagged | pycps/request.py:316 | The pieces are the truthy items, in order, each written as `<k>item</k>`: one piece per truthy item and no other. |
| Requests.TruthyItems | pycps/request.py:316 | The truthy items in order: each truthy item as often as it occurs in the list, and no falsy one. |
| Requests.FalsyItemsWriteNothing | pycps/request.py:316 | A list whose items are all falsy writes nothing. |
| Requests.FalsyFieldsWriteNothing | pycps/request.py:313-316 | A content table whose items are all falsy adds no piece. |
| Requests.DocumentsFirst | pycps/request.py:305-317 | The content is the documents' lines, a newline, then the nested blocks and flat fields. |
| Requests.EmptyContentSelfCloses | pycps/request.py:296-317 | With no documents, no nested blocks and only falsy fields, the request ends with `<cps:content/>`. |
| Requests.AppendNested | pycps/request.py:308-312 | The nested-block loop appends, in order, each non-empty block: its opening tag, one tag per truthy sub-value, then its closing tag. |
| Requests.AppendFlat | pycps/request.py:313-316 | The flat-field loop appends each key's pieces in the table's iteration order. |
| Requests.SetIdAt | pycps/request.py:84-95 | `make_id_tag` plus setting the text. It fails with ParameterError exactly when the path has more steps than the allowed depth. Otherwise the root keeps its tag. |
| Requests.AddId | pycps/request.py:83-95 | `add_id` fails exactly for paths longer than 10 steps. The document keeps its tag. |
| Requests.IdReadsBack | pycps/request.py:84-95 | Following the same path in the updated tree reaches the id text written there. Missing steps are created as new last children, and `.` is the element itself. |
| Requests.FirstIndexAfterUpdate | pycps/request.py:91 | Replacing the first child with a tag by another element with that tag keeps it the first with that tag. |
| Requests.FirstIndexAfterAppend | pycps/request.py:92-94 | A child appended when no child has its tag becomes the first with that tag. |
| Requests.AddIdRoundTrip | pycps/request.py:95 | Writing `str(id)` at a path of at most 10 steps succeeds, and `get_doc_id` on the same path returns it. |
| Requests.TreesOf | pycps/request.py:100-106 | `to_etree` as written of each keyed document under the root tag, in the order the given dict lists them. They convert exactly when each conversion succeeds, each into one tree. An ElementTree document makes it fail. A missing document is the empty term under the root tag. |
| Requests.WrapRoot | pycps/request.py:107-111 | The result has the root tag. It is either the document itself or a new root whose only child is the document. |
| Requests.RawDocuments | pycps/request.py:97-116 | Fully formed documents convert exactly when each one's `to_raw_xml`, as written, succeeds. The results keep the list's order. Any ElementTree document makes it fail. |
| Requests.KeyedDocumentsInInsertionOrder | pycps/request.py:104-116 | With insertion-order dicts the keyed documents are stored in the order they were given. |
| Requests.KeyedDocumentCarriesId | pycps/request.py:100-116 | Every keyed document is stored exactly once, at the place the new dict's iteration order gives it. The stored text is the serialisation of its tree under the root tag with its id written in, and reading the id path of that tree gives `str(id)`. |
| Requests.DeepIdPathRejected | pycps/request.py:86-114 | An id path longer than 10 steps makes `set_documents` raise ParameterError for any non-empty set of documents that convert. |
| Requests.WrapRoots | pycps/request.py:107-111 | The wrapping loop gives each document its `WrapRoot`. |
| Requests.AddIds | pycps/request.py:112-114 | The id loop gives each tree its id. It fails, with ParameterError, exactly when there are trees and the path is too deep. |
| Requests.Distinct | pycps/request.py:125 | `dict.fromkeys(ids)` keeps only given ids. It keeps every id whose key no earlier id has, never two ids of one key, and a key for every id. Keys compare as Python compares them, so `True` is the key 1 and `False` the key 0. |
| Requests.DistinctSnoc | pycps/request.py:125 | Inserting one more id keeps it exactly when its key is not yet kept. |
| Requests.EqualKeyIsDropped | pycps/request.py:125 | An id equal to an earlier one, such as `True` after 1, leaves the kept ids unchanged. |
| Requests.ArrangeKeepsFirstKeys | pycps/request.py:125-126 | Visiting the kept ids in another order keeps all of the above. |
| Requests.IdKeys | pycps/request.py:122-127 | The ids `set_doc_ids` hands on. For a list, that is what `dict.fromkeys` keeps (the first id of each key, no key twice), as many as it keeps. For one id, that id alone. |
| Requests.StringsOf | pycps/request.py:207 | The texts of a list of strings, item by item. |
| Requests.Request.constructor | pycps/request.py:45-67 | A new request holds the command, request id, timeout and type. It has no timestamp, content, nested blocks or documents. |
| Requests.Request.SetStringified | pycps/request.py:190-196 | None changes nothing. Any other value stores `str(value)` under the setter's tag. No other key or field changes. |
| Requests.Request.SetStored | pycps/request.py:209-215 | None changes nothing. Any other value is stored as given under the setter's tag. No other key or field changes. |
| Requests.Request.SetBackupFile | pycps/request.py:162-166 | The name is stored under `file` exactly when it ends in `.tar.gz` in any case. Otherwise ValueError is raised and the content is unchanged. |
| Requests.Request.SetSequenceCheck | pycps/request.py:172-174 | Stores `yes` or `no` under `type`, by the value's truth. None does nothing. |
| Requests.Request.SetQuery | pycps/request.py:176-188 | A string or None is stored as is, and a mapping is stored as its `terms_from_dict`. TypeError is raised exactly for other inputs. |
| Requests.Request.SetList | pycps/request.py:198-200 | Each key/value pair becomes an escaped term under its path, one per line. None does nothing. |
| Requests.Request.SetOrdering | pycps/request.py:202-207 | A string is stored as is, and a list of strings is joined with newlines. TypeError is raised exactly when the list holds a non-string. None does nothing. |
| Requests.PrepareDocuments | pycps/request.py:69-116 | The loops of `set_documents` prepare exactly the document strings `DocumentsOf` describes, or its error. |
| Requests.PrepareKeyed | pycps/request.py:99-116 | For keyed documents, the conversion, wrapping and id loops give exactly the strings `DocumentsOf` describes for them, or its error. |
| Requests.Request.SetDocuments | pycps/request.py:69-116 | The stored documents are those `DocumentsOf` gives: fully formed ones in list order, keyed ones in the iteration order of the dict built from them. On an error that error is returned and nothing else changes. |
| Requests.Request.SetDocIds | pycps/request.py:118-127 | Body-less documents for the ids as `dict.fromkeys` hands them on (the first id of each key, in its iteration order), stored as `set_documents` stores them. Nothing else changes. |
| Requests.Request.NewBackup | pycps/request.py:337-351 | Command `backup`, the archive under `file` and the backup type under `type`. ValueError is raised for a bad archive name. The request id, timeout and type are as given. There are no documents, no nested blocks and no timestamp. |
| Requests.Request.NewRestore | pycps/request.py:354-369 | Command `restore`, the archive under `file` and `yes`/`no` under `type`. ValueError is raised for a bad archive name. The request id, timeout and type are as given. There are no documents, no nested blocks and no timestamp. |
| Requests.Request.NewModify | pycps/request.py:372-470 | The insert, update, replace and partial-replace requests: this command, an empty content table, and documents set as `set_documents` does. The request id, timeout and type are as given. There are no nested blocks and no timestamp. |
| Requests.Request.SetTimestamp | pycps/request.py:281-282 | Setting the timestamp leaves the request text unchanged for every key order. |
| Requests.Request.GetXmlRequest | pycps/request.py:269-318 | The request text is the envelope around the documents, nested blocks and flat fields, joined by newlines. |
| Requests.Request.Transmit | pycps/request.py:326-333 | The request text goes out through `_send_request`. The raw reply follows the retry policy, and the request text is the body of the first HTTP request. |
| Requests.Request.Send | pycps/request.py:320-334 | The reply comes from the connection's retry policy and is read by the command's response view. The request text is logged as the body of the first HTTP request. |
| Query.Escape | pycps/query.py:52-53 | Escaping never shortens the term. |
| Query.EscapeHasNoBrackets | pycps/query.py:52-53 | An escaped term holds no `<` or `>`. |
| Query.UnescapeEscape | pycps/query.py:52-53 | Escaping is reversible: reading the three entity references back gives the term. |
| Query.NonEmptySnoc | pycps/query.py:48-49 | Empty path segments are skipped. |
| Query.OpensClosesSnoc | pycps/query.py:50-51 | Each tag's open tag goes at the end of the prefix, and its close tag at the front of the postfix. |
| Query.NestSnoc | pycps/query.py:46-54 | Adding a tag nests the body one level deeper, innermost last. |
| Query.OpensClosesNest | pycps/query.py:54 | The prefix, the term and the postfix together are the term nested in the tags, balanced. |
| Query.TermIsNested | pycps/query.py:38-54 | `term` is the term, escaped when asked, nested in the path's non-empty segments. Opens follow path order and closes reverse order. |
| Query.TermWithoutPath | pycps/query.py:46-54 | Without a path, or with an empty one, `term` is the term itself, escaped when asked. |
| Query.Term | pycps/query.py:20-54 | The loop that builds prefix and postfix computes `term`. |
| Query.TermsFromDict | pycps/query.py:57-78 | The accumulating loop gives the concatenation of every item's term in iteration order. |
| Query.Item | pycps/query.py:74-77 | One item's term: a nested mapping is built recursively and not escaped again, and a text is escaped. |
| Query.ItemTerm | pycps/query.py:66-78 | Each item contributes the nested term of its value under its path. |
| Query.AndTerms | pycps/query.py:81-91 | The space-joined arguments inside `(` and `)`. |
| Query.OrTerms | pycps/query.py:93-103 | The space-joined arguments inside `{` and `}`. |
| Query.NotTerm | pycps/query.py:105-114 | `~` followed by the term. |
| Query.ListArgumentsSpread | pycps/query.py:81-103 | Joining a list argument first is the same as spreading its terms among the others. |
| Converters.ValueShape | pycps/converters.py:40-56 | A leaf maps to its text. Children with distinct tags give a mapping with one entry per child, in the order the dict visits their tags. Otherwise the children before the first repeated tag come in that dict order and the rest in document order, each as a one-key mapping. Every child appears. |
| Converters.DistinctSnoc | pycps/converters.py:48-51 | A tag repeats after one more child exactly when it repeated before or the new child's tag was seen. |
| Converters.FirstRepeat | pycps/converters.py:45-51 | The first child whose tag an earlier child has. The children before it have distinct tags, and it is the end exactly when all tags are distinct. |
| Converters.ValueOf | pycps/converters.py:40-58 | A leaf, and only a leaf, is a scalar. A mapping or a list has one entry per child. |
| Converters.DocEntries | pycps/converters.py:47-56 | One item per child, in document order: its tag and its representation. |
| Converters.VisitedParts | pycps/converters.py:46-56 | The items are handed out with the children before the first repeated tag in their dict's iteration order and the rest in document order. |
| Converters.VisitedKeepsChildren | pycps/converters.py:46-56 | Every child is handed out, and nothing else is. |
| Converters.HasKeyOfEntries | pycps/converters.py:47 | The keys collected so far are the tags of the children seen so far. |
| Converters.EtreeToDictRecursive | pycps/converters.py:40-58 | The loop with the `identical_children` flag computes the recursive representation, with the dict visited in its iteration order when it turns into a list. |
| Converters.EtreeToDict | pycps/converters.py:60-65 | `{root_tag: representation}` for an element or tree. TypeError for anything else. |
| Converters.Attach | pycps/converters.py:97-106 | Building never changes the parent's tag or attributes. |
| Converters.AttachEntries | pycps/converters.py:99-101 | Building from a mapping keeps the parent's tag and attributes. |
| Converters.AttachItems | pycps/converters.py:102-104 | Building from a list keeps the parent's tag and attributes. |
| Converters.Subtrees | pycps/converters.py:99-101 | One subtree per item, tagged with its key and built from its value. |
| Converters.AttachEntriesAppends | pycps/converters.py:99-101 | A mapping appends its subtrees after the parent's existing children. |
| Converters.DictAddsOneChildPerKey | pycps/converters.py:99-101 | A mapping adds exactly one child per key, in order, and changes nothing else. |
| Converters.ScalarSetsText | pycps/converters.py:105-106 | A scalar sets the text to `str(value)` and adds no child. |
| Converters.ListAddsEachItem | pycps/converters.py:102-104 | A list adds its items one after another to the same parent. |
| Converters.ListItemsShift | pycps/converters.py:102-104 | Adding items from position i is adding the tail's items from position i-1. |
| Converters.AttachTo | pycps/converters.py:97-106 | The loop form computes the recursive build. |
| Converters.DictToEtreeOf | pycps/converters.py:68-121 | Errors exactly without a root tag and a non-mapping: TypeError for None or a number, AttributeError otherwise. One root exactly for a root tag or a one-key mapping, tagged with the root tag or that key. Otherwise one root per key, in the dict's order, tagged with the key. |
| Converters.BuildRoots | pycps/converters.py:112-117 | The loop over the keys gives one root per item. |
| Converters.DictToEtree | pycps/converters.py:68-121 | The method with its loop over roots returns the specified result, including the errors for lists and scalars without a root tag. |
| Converters.OneKeyIsRootTag | pycps/converters.py:108-118 | Without a root tag, a one-key mapping builds the same root as naming that key as the root tag. |
| Converters.RebuildPlain | pycps/converters.py:40-106 | Building a plain element's representation under its tag gives the element back, each element's children in the order `etree_to_dict` visited them. |
| Converters.Rearranged | pycps/converters.py:40-56 | The tree a round trip gives back keeps every tag, text and attribute, and the number of children. |
| Converters.RearrangedChildren | pycps/converters.py:46-56 | The rearranged children are the children, each rearranged: none is dropped or added. |
| Converters.RearrangedInInsertionOrder | pycps/converters.py:46-56 | With insertion-order dicts nothing is rearranged. |
| Converters.SubtreesOfVisited | pycps/converters.py:99-101 | Building each visited item gives the rearranged children. |
| Converters.AttachVisited | pycps/converters.py:97-104 | An element with children is rebuilt as one subtree per visited item, whether its tags repeat or not. |
| Converters.RebuildNode | pycps/converters.py:97-104 | An element with children is rebuilt from the subtrees of its visited items. |
| Converters.RoundTrip | pycps/converters.py:24-121 | `dict_to_etree(etree_to_dict(e))` gives `e` back with each element's children in the order its dict visited them, for trees without attributes whose text sits exactly at the leaves. With insertion-order dicts it gives `e` itself. |
| Converters.RoundTripIn | pycps/converters.py:24-121 | Converting a plain element's representation, under its own tag, back gives the element with each element's children in the order its dict visited them. |
| Converters.EmptyLeafComesBackAsNone | pycps/converters.py:105-106 | An empty leaf comes back with the text "None". |
| Converters.ToEtreeAsWritten | pycps/converters.py:146-147 | As written, a tree source raises AttributeError. Every other source behaves as in the corrected form. |
| Converters.ToEtree | pycps/converters.py:124-158 | A tree or element gives its root. A string gives its parse, or XMLError carrying the string. A mapping gives exactly what `dict_to_etree` builds from it (`DictToEtreeOf`), and anything else XMLError. |
| Converters.ToRawXmlAsWritten | pycps/converters.py:181-182 | As written, a tree source raises AttributeError. Every other source behaves as in the corrected form. |
| Converters.ToRawXml | pycps/converters.py:161-187 | A string is unchanged. An element is serialised, and a tree is serialised through its root, as corrected. A one-key mapping is the serialisation of the root `dict_to_etree` builds under its key. A mapping with any other number of keys raises AttributeError, because `dict_to_etree` then returns a list. Other inputs raise TypeError. |
| Converters.RawXmlOfTreeDict | pycps/converters.py:161-187 | A plain tree's mapping serialises as the tree with its children in dict order. With insertion-order dicts it serialises as the tree itself. |
| Responses.KindOfAsWritten | pycps/response.py:46-75 | As written, the result is None exactly for show-history. Unlisted commands get the base view. |
| Responses.KindOf | pycps/response.py:46-75 | Each listed command gets its view, both ways: modify, list, status, lookup, search, search-delete, alternatives, list-words, list-paths and list-facets. Reindex, backup, restore, clear and unlisted commands get the base view, and only they do. |
| Responses.KindOfMatchesTable | pycps/response.py:46-75 | The corrected dispatch agrees with the table for every command except show-history. |
| Responses.ChildText | pycps/errors.py:86-92 | A missing child raises AttributeError. Otherwise the result is the child's text. |
| Responses.DocumentIds | pycps/errors.py:86-92 | The text of each `document_id` child, in order. |
| Responses.ReadErrorFields | pycps/errors.py:86-92 | The fields are read exactly when every named child exists, otherwise AttributeError. They are the code, text, level, source and message texts and the document ids. |
| Responses.ApiErrorOf | pycps/response.py:116-117 | An APIError with the fields and the code read as an integer, exactly when the code and every field can be read. Otherwise it is the error the constructor raises first: AttributeError without a code, TypeError for a code without text, ValueError for a code that is not an integer, and AttributeError for a missing field. |
| Responses.ParseForErrors | pycps/response.py:112-119 | No error block passes. A block without a level raises AttributeError. A fatal level raises APIError, and only a fatal level does. Any other level yields the warning's fields, and construction goes on. |
| Responses.ContentDict | pycps/response.py:121-123 | The representation of the content element. TypeError without one. |
| Responses.StatusOf | pycps/response.py:165-173 | Only the status view reads its content as a mapping at construction. |
| Responses.NewResponse | pycps/response.py:86-110 | An unparsable reply raises ResponseError with the raw text. When errors are checked, the error `_parse_for_errors` raises is raised, and the warning holds its fields. Otherwise no warning is kept. A status reply without content raises TypeError. The id path is split on `/`. |
| Responses.HandleResponseAsWritten | pycps/response.py:44-75 | As written, show-history raises TypeError. Every other command behaves as in the corrected form. |
| Responses.HandleResponse | pycps/response.py:44-75 | The response has its command's view. An unparsable reply raises ResponseError. |
| Responses.ContentField | pycps/response.py:134-150 | None for zero matches, the value of exactly one, and the list of values in document order for several. KeyError(name) when a match is not tagged `name`, which happens for `.`. |
| Responses.ContentFieldKeys | pycps/response.py:144-150 | A field named by a tag is always read. The path `.` raises KeyError('.') unless the content element is itself tagged `.`. |
| Responses.DotFieldIsKeyError | pycps/response.py:144-148 | For a content element tagged as the envelope tags it, the path `.` raises KeyError('.'). |
| Responses.ContentString | pycps/response.py:129-132 | The serialised children of the content, concatenated in order. TypeError without content. |
| Responses.ContentStringSplits | pycps/response.py:129-132 | The content string is the first child's serialisation followed by the content string of the rest. |
| Responses.StorageName | pycps/response.py:156-158 | The storage element's text. AttributeError without one. |
| Responses.CommandName | pycps/response.py:160-162 | The command element's text. AttributeError without one. |
| Responses.IntOf | pycps/response.py:263-282 | `int()` of a field: exactly the texts that parse as an integer. TypeError for anything but a text. |
| Responses.ReportedText | pycps/response.py:144-148 | A reported text comes from exactly one field tagged `name`, with no children and with that text. |
| Responses.CountField | pycps/response.py:263-282 | `int()` of the one field's text. A reported text that is not a number raises ValueError, and a missing field raises TypeError. |
| Responses.Found | pycps/response.py:263-265 | `found` is the reported `found` text read as an integer, and fails exactly when there is none. |
| Responses.FromDocument | pycps/response.py:267-269 | `from_document` is the reported `from` text read as an integer, and fails exactly when there is none. |
| Responses.ToDocument | pycps/response.py:271-273 | `to_document` is the reported `to` text read as an integer, and fails exactly when there is none. |
| Responses.Hits | pycps/response.py:281-282 | `hits` is the reported `hits` text read as an integer, and fails exactly when there is none. |
| Responses.More | pycps/response.py:275-278 | The first character is dropped before the integer is parsed. |
| Responses.Lookup | pycps/response.py:184-187 | The value under a key is present exactly when some item has that key. |
| Responses.IdOf | pycps/response.py:184-187 | `document['id']`: KeyError without it, TypeError on a non-mapping. |
| Responses.IdsOf | pycps/response.py:184-187 | It succeeds exactly when every document has an id, and then gives the ids in order. Otherwise it gives the error of the first document without one. |
| Responses.ModifiedIds | pycps/response.py:182-187 | A single document is wrapped into a one-element list, and a list is read item by item. |
| Responses.SingleModifiedId | pycps/response.py:182-187 | A reply with one document holding an `id` reports exactly that id. |
| Responses.GetDocId | pycps/response.py:242-249 | An empty path gives the root's text. A missing step gives None. |
| Responses.GetDocIdAppend | pycps/response.py:242-249 | Following a path is following its first part and then the rest. |
| Responses.DocList | pycps/response.py:222-289 | Lookup takes the `document` children of the content. Other list views take the children of `results`. |
| Responses.DictOf | pycps/response.py:251-261 | `dict(pairs)` has exactly the pairs' keys, and a key no later pair repeats holds its pair's value. |
| Responses.DictOfStep | pycps/response.py:251-261 | Adding the last pair to the dict of the others gives the dict of all pairs. |
| Responses.DictOfKeyed | pycps/response.py:251-261 | When the pairs' keys are given position by position, those are the keys, and a key no later position repeats holds its pair's value. |
| Responses.DictOfIds | pycps/response.py:251-261 | Pairs keyed by document ids: the keys are the documents' ids, each holding the value of its last document. |
| Responses.DocIdsCover | pycps/response.py:251-261 | The ids listed position by position are the ids of the documents. |
| Responses.DocumentDict | pycps/response.py:252-253 | Ok exactly for an element tagged `document`. |
| Responses.Render | pycps/response.py:251-261 | One document as a mapping, a tree or serialised text. |
| Responses.DocPairs | pycps/response.py:251-261 | One id/document pair per document, in list order. The dict format fails exactly on a document not tagged `document`. |
| Responses.GetDocuments | pycps/response.py:226-261 | Unknown formats raise ParameterError. Otherwise it succeeds exactly when the document list is read and, for `dict`, every document is tagged `document`. |
| Responses.DocumentsById | pycps/response.py:251-261 | The documents read one by one and keyed by id: the keys are their ids, each holding its last document rendered in the format. |
| Responses.GetDocumentsById | pycps/response.py:226-261 | The keys are exactly the document ids, and each id holds its last document: a mapping, a tree or serialised text, as asked. |
| Responses.Attr | pycps/response.py:303-304 | An attribute value, or KeyError. |
| Responses.Content | pycps/response.py:294-367 | The content element, or AttributeError without one. |
| Responses.TermHits | pycps/response.py:303-304 | Each term's text with its `hits` as an integer. |
| Responses.TermHit | pycps/response.py:303-304 | One term's text and its `hits` attribute read as an integer. |
| Responses.FacetPairs | pycps/response.py:303-305 | It succeeds exactly when every facet reads. Then it has one entry per facet, in order, each that facet's path and hit counts. |
| Responses.FacetPair | pycps/response.py:303-304 | One facet reads exactly when it has a `path` attribute and each term a `hits` attribute that reads as an integer. The entry is keyed by its path. KeyError('path') without a path. The hit counts are stated by `FacetPairHits`. |
| Responses.FacetPairHits | pycps/response.py:303-304 | Each term text of a facet is a key holding the `hits` of its last term, read as an integer. |
| Responses.FacetsByPath | pycps/response.py:303-305 | The facets read one by one and keyed by path: each path holds the hit counts of its last facet. |
| Responses.SearchFacets | pycps/response.py:294-305 | AttributeError without content. Succeeds exactly when every facet can be read. |
| Responses.SearchFacetsByPath | pycps/response.py:294-305 | The keys are exactly the facet paths, and each path holds the term hit counts of its last facet. |
| Responses.AggregateAsWritten | pycps/response.py:307-314 | As written, every call raises NameError for `dic`. |
| Responses.AggregatePairs | pycps/response.py:313-314 | One query/data pair per aggregate, present exactly when both children exist. |
| Responses.Aggregate | pycps/response.py:307-314 | AttributeError without content. Succeeds exactly when every aggregate has a query and a data child. Its only error is AttributeError. |
| Responses.AggregatesByQuery | pycps/response.py:313-314 | The aggregates read one by one and keyed by query text: each query holds the data text of its last aggregate. |
| Responses.AggregateByQuery | pycps/response.py:307-314 | The keys are exactly the query texts, and each holds the data text of its last aggregate. |
| Responses.AggregateNeverNameError | pycps/response.py:307-314 | The written form always raises NameError. The corrected form raises only AttributeError. |
| Responses.WordCounts | pycps/response.py:328-329 | Each word's text with its `count` attribute. |
| Responses.WordLists | pycps/response.py:328-330 | It succeeds exactly when every list reads. Then it has one entry per list, in order, each that list's `to` and word counts. |
| Responses.WordList | pycps/response.py:328-329 | One list reads exactly when it has a `to` attribute and each word a `count` attribute. The entry is keyed by its `to`. KeyError('to') without one. The counts are stated by `WordListCounts`. |
| Responses.WordListCounts | pycps/response.py:328-329 | Each word text of a list is a key holding the `count` text of its last word. |
| Responses.ListsByTo | pycps/response.py:328-330 | The lists read one by one and keyed by `to`: each holds the word counts of its last list. |
| Responses.Words | pycps/response.py:319-330 | AttributeError without content. Succeeds exactly when every list can be read. |
| Responses.WordsByList | pycps/response.py:319-330 | The keys are exactly the lists' `to` attributes, and each holds the word counts of its last list. |
| Responses.WordAttribs | pycps/response.py:351-352 | Each alternative word's text with its attributes. |
| Responses.AlternativePairs | pycps/response.py:349-354 | It succeeds exactly when every `alternatives` element reads. Then it has one entry per element, in order, each that element's `to` text, count and words. |
| Responses.AlternativePair | pycps/response.py:349-352 | One term's alternatives: its `to` text, and its `count` text read as an integer. A missing child raises AttributeError, a count without text TypeError, and a count text that is not an integer ValueError. |
| Responses.AlternativePairWords | pycps/response.py:350-351 | Each alternative word text is a key holding the attributes of its last word. |
| Responses.AlternativesByTerm | pycps/response.py:349-354 | The terms read one by one and keyed by `to` text: each holds the alternatives of its last term. |
| Responses.GetAlternatives | pycps/response.py:335-354 | AttributeError without content or without `alternatives_list`. Otherwise it succeeds exactly when every `alternatives` element can be read. |
| Responses.GetAlternativesByTerm | pycps/response.py:335-354 | The keys are exactly the terms' `to` texts, and each holds the count and words of its last term. |
| Responses.FacetTerms | pycps/response.py:365-367 | One entry per facet: its path and its terms' texts in order. KeyError('path') when a facet has no path. |
| Responses.ListFacets | pycps/response.py:359-367 | AttributeError without content. Succeeds exactly when every facet has a path, and KeyError('path') otherwise. |
| Responses.FacetTermsByPath | pycps/response.py:365-367 | The facets read one by one and keyed by path: each path holds the term texts of its last facet. |
| Responses.ListFacetsByPath | pycps/response.py:359-367 | The keys are exactly the facet paths, and each holds the term texts, in order, of its last facet. |
| Responses.GetPaths | pycps/response.py:203-209 | The `path` texts under `paths`, in order, present exactly when `paths` exists. |
| Text.Split | pycps/response.py:110 | `split('/')` is never empty, and no part holds the separator. |
| Text.JoinSplit | pycps/response.py:110 | Splitting the id path on `/` and joining the parts with `/` gives the path back. |
| Text.SplitJoin | pycps/response.py:110 | Joining slash-free steps with `/` and splitting again gives the steps back. |
| Text.ParseIntToString | pycps/response.py:263-282 | `int()` reads back `str()` of every integer, so a count the server writes in decimal is read exactly. |
| Text.ParseInt | pycps/response.py:263-282 | `int()` of a text reads exactly the texts that are an optional `+` or `-` followed by decimal digits; every other text, the empty one included, fails. Digits read as their decimal value, with `-` negating it and `+` keeping it. |
| Text.Lower | pycps/request.py:163 | `lower()` keeps the length, turns each capital into its small letter (code point plus 32) and keeps every other character. |
| Text.LowerIdempotent | pycps/request.py:163 | Lowering twice is lowering once. |
| Values.Str | pycps/request.py:196 | `str(v)`: a string is itself, `int()` reads an integer's text back as that integer, and None and booleans do not read as integers. |
| Values.Truthy | pycps/request.py:316 | A truthy value is not None and writes a non-empty text. A string is truthy exactly when it is not empty, an integer exactly when it is not 0, and a boolean exactly when it is True. |
| Values.StrEmpty | pycps/request.py:316 | `str(v)` is empty only for the empty string. |
| Connections.Headers | pycps/connection.py:102 | The headers dict: Host, `Content-Type: text/xml` and `Recipient: storage`, and no other. Being a map, it claims no order. |
| Connections.SendOutcome | pycps/connection.py:88-110 | A first reply is returned. Another failure, or a stale connection that cannot be reopened, is ConnectionError. After a stale connection is reopened, the second attempt's reply is returned, or ConnectionError. |
| Connections.SendErrorsAreConnectionErrors | pycps/connection.py:88-110 | Every send failure surfaces as ConnectionError. |
| Connections.NoRetryUnlessStale | pycps/connection.py:103-110 | A failure that is not stale is not retried. |
| Connections.ReplyIsFromSomeAttempt | pycps/connection.py:103-112 | At most two attempts. A reply comes from the first attempt, or from the second after a stale first and a successful reopen. |
| Connections.Connection.constructor | pycps/connection.py:31-60 | The settings are stored. Nothing is opened or sent yet. |
| Connections.Connection.New | pycps/connection.py:31-62 | The settings are stored and the connection opened once, and that first connection is the one in use. ConnectionError if that fails. |
| Connections.Connection.NewWithDefaults | pycps/connection.py:31-33 | The keyword settings take their defaults: root `document`, id path `./id`, selector `/cgi-bin/cps2-cgi`, application `PYCPS`, no reply charset. |
| Connections.Connection.OpenConnection | pycps/connection.py:64-74 | One opening attempt, which replaces the connection on success. Any failure is ConnectionError and keeps the old one. |
| Connections.Connection.TryOnce | pycps/connection.py:102-105 | One POST to the selector URL with this body and the headers on the current connection. |
| Connections.Connection.SendRequest | pycps/connection.py:76-112 | The result follows the retry policy, and so do the attempt and open counts. Afterwards the reopened connection is current exactly when a stale attempt was followed by a successful reopen. The log only grows. Every new entry is a POST of this body with the headers. The first goes over the old connection and the resend over the reopened one. |

## Left out

- HTTP and sockets: the transport is a script of outcomes. `_open_http_connection`'s httplib object, the port and the reply's `read()` are abstract.
- ElementTree/lxml parsing and serialisation: `parse` and `serialise` are parameters. `find` and `findall` cover `.` and single tag names only, which are the only path forms the client uses on its own trees.
- In-place tree mutation and aliasing: trees are values. The updated tree is returned and stored where the source mutates it.
- Python 2 dict iteration order itself: CPython 2's hash-table layout is not modelled. Every dict the client builds and iterates is visited in the order of a `Dicts.IterationOrder` parameter. A dict handed in by the caller arrives as its items, in the order it would iterate them.
- Requests.DocumentsOf: the keyed documents arrive as the items of the caller's dict, so their ids are distinct there. The model does not require it and keeps a repeated id as two documents.
- Requests.TreesOf: it calls `to_etree` as written, so an ElementTree document raises AttributeError (see Findings). The corrected `Converters.ToEtree` is not used there.
- Requests.RawDocuments: it calls `to_raw_xml` as written, so an ElementTree document raises AttributeError (see Findings). The corrected `Converters.ToRawXml` is not used there.
- `seconds` (pycps/response.py:152-154): it parses a float.
- `get_content_etree` (pycps/response.py:125-127): it only returns the stored content element, the `content` field of `Response`.
- `add_property` (pycps/request.py:129-157): it synthesises class properties at run time. The subclasses' initial setter calls are modelled directly in `NewBackup`, `NewRestore` and `NewModify`.
- The other request subclasses (search, list-words, search-delete, lookup, retrieve, delete, alternatives, list/retrieve first/last, similar, list-facets; pycps/request.py:473-749): each only fixes a command name and calls the setters modelled above.
- Connection convenience methods (pycps/connection.py:114 onwards): each only builds one of these requests and sends it.
- `Debug` output in `send` and the `warnings.warn` call itself. The warning's fields are kept in `Response.warning`.
- Exception `__str__` formatting in pycps/errors.py. The exceptions are constructors of one datatype.
- pycps/utils.py, pycps/__init__.py and setup.py are not part of this model.
- Text.Lower: only ASCII letters are lowered, unlike Python's Unicode `str.lower()`.
- Text.ParseInt: `int()` is modelled as an optional sign and ASCII digits, without the surrounding whitespace Python also accepts.
- Values.Str: `str()` of lists and floats is not modelled. Scalars are None, strings, integers and booleans.
- Requests.Request.SetStored: a list value is stored as given, but only lists of scalars are modelled.
- Converters.ValueOf: dict keys that compare equal across types (`1 == True`) are not modelled, because tags are strings.
- Query.Escape: its own contract states only the length. What the escaping means is stated by Query.EscapeHasNoBrackets and Query.UnescapeEscape.
- Requests.Request.Send: it uses the corrected dispatch, so show-history is read with the base view instead of raising TypeError.

## Findings

| source | as written | input that shows it | evidently intended | confidence | as-written member | corrected member |
|---|---|---|---|---|---|---|
| pycps/response.py:68 | `'show-history': None`, and the None is then called | any reply to command `show-history` raises TypeError | answer show-history with a response view (the base one) | not executed | Responses.HandleResponseAsWritten | Responses.HandleResponse |
| pycps/response.py:313 | `dic(...)`, a name that is never bound | any call of `get_aggregate` raises NameError | `dict(...)` | not executed | Responses.AggregateAsWritten | Responses.Aggregate |
| pycps/converters.py:146-147 | `source.get_root()` on an ElementTree | `to_etree` of any ElementTree raises AttributeError | `source.getroot()` | not executed | Converters.ToEtreeAsWritten | Converters.ToEtree |
| pycps/converters.py:181-182 | `ET.tostring(source, ...)` with an ElementTree as `source` | `to_raw_xml` of any ElementTree raises AttributeError, because serialising reads the tree object's missing `tag` | `ET.tostring(source.getroot(), ...)` for a tree | not executed | Converters.ToRawXmlAsWritten | Converters.ToRawXml |
