/**
 * Query-string helpers (pycps/query.py): XML escaping of a term, wrapping a
 * term in the tags of a slash path, building a query from a nested mapping of
 * paths to texts, and the AND / OR / NOT combinators.
 */
module Query {
  import opened Wrappers
  import Text

  // ---------------------------------------------------------------------------
  // Escaping

  /** `cgi.escape` without `quote`: `&`, `<` and `>` become entity references. */
  function EscapeChar(c: char): string
  {
    if c == '&' then "&amp;" else if c == '<' then "&lt;" else if c == '>' then "&gt;" else [c]
  }

  function Escape(s: string): (r: string)
    ensures |r| >= |s|
  {
    if |s| == 0 then "" else EscapeChar(s[0]) + Escape(s[1..])
  }

  /** An escaped term holds no angle bracket, so it cannot open or close a tag. */
  lemma {:induction false} EscapeHasNoBrackets(s: string)
    ensures '<' !in Escape(s) && '>' !in Escape(s)
  {
    if |s| > 0 {
      EscapeHasNoBrackets(s[1..]);
      assert Escape(s) == EscapeChar(s[0]) + Escape(s[1..]);
    }
  }

  /** Reads the three entity references back; the inverse that escaping must have. */
  function Unescape(s: string): string
  {
    if |s| == 0 then ""
    else if |s| >= 5 && s[..5] == "&amp;" then "&" + Unescape(s[5..])
    else if |s| >= 4 && s[..4] == "&lt;" then "<" + Unescape(s[4..])
    else if |s| >= 4 && s[..4] == "&gt;" then ">" + Unescape(s[4..])
    else [s[0]] + Unescape(s[1..])
  }

  /** Escaping loses nothing: the escaped text reads back as the original term. */
  lemma {:induction false} UnescapeEscape(s: string)
    ensures Unescape(Escape(s)) == s
  {
    if |s| > 0 {
      var c, rest := s[0], Escape(s[1..]);
      assert Escape(s) == EscapeChar(c) + rest;
      UnescapeEscape(s[1..]);
      UnescapeOne(c, rest);
      assert [c] + s[1..] == s;
    }
  }

  /** One escaped character followed by any text reads back as that character followed by the text read back. */
  lemma {:induction false} UnescapeOne(c: char, rest: string)
    ensures Unescape(EscapeChar(c) + rest) == [c] + Unescape(rest)
  {
    var e := EscapeChar(c) + rest;
    if c == '&' {
      assert e[..5] == "&amp;" && e[5..] == rest;
    } else if c == '<' {
      UnescapeLt(rest);
    } else if c == '>' {
      UnescapeGt(rest);
    } else {
      UnescapePlain(c, rest);
    }
  }

  lemma {:induction false} UnescapeLt(rest: string)
    ensures Unescape("&lt;" + rest) == "<" + Unescape(rest)
  {
    var e := "&lt;" + rest;
    assert e[..4] == "&lt;" && e[4..] == rest;
    assert |e| >= 5 ==> e[..5][1] == 'l';
  }

  lemma {:induction false} UnescapeGt(rest: string)
    ensures Unescape("&gt;" + rest) == ">" + Unescape(rest)
  {
    var e := "&gt;" + rest;
    assert e[..4] == "&gt;" && e[4..] == rest;
    assert |e| >= 5 ==> e[..5][1] == 'g';
  }

  lemma {:induction false} UnescapePlain(c: char, rest: string)
    requires c != '&' && c != '<' && c != '>'
    ensures Unescape([c] + rest) == [c] + Unescape(rest)
  {
    var e := [c] + rest;
    assert e[0] == c && e[1..] == rest;
    assert |e| >= 5 ==> e[..5][0] == c;
    assert |e| >= 4 ==> e[..4][0] == c;
  }

  // ---------------------------------------------------------------------------
  // Wrapping a term in the tags of a path

  function OpenTag(tag: string): string
  {
    "<" + tag + ">"
  }

  function CloseTag(tag: string): string
  {
    "</" + tag + ">"
  }

  /** The non-empty segments, in order. */
  function NonEmpty(parts: seq<string>): seq<string>
  {
    if |parts| == 0 then []
    else NonEmpty(parts[..|parts| - 1]) + (if parts[|parts| - 1] != "" then [parts[|parts| - 1]] else [])
  }

  /** The tags a path wraps its term in: none without a path, else its non-empty segments. */
  function Tags(xpath: Option<string>): seq<string>
  {
    match xpath
    case None => []
    case Some(p) => NonEmpty(Text.Split(p, '/'))
  }

  /** The opening tags in path order. */
  function Opens(tags: seq<string>): string
  {
    if |tags| == 0 then "" else Opens(tags[..|tags| - 1]) + OpenTag(tags[|tags| - 1])
  }

  /** The closing tags in reverse path order. */
  function Closes(tags: seq<string>): string
  {
    if |tags| == 0 then "" else CloseTag(tags[|tags| - 1]) + Closes(tags[..|tags| - 1])
  }

  /** `body` nested inside the tags, outermost first: each tag closes right after what it opened. */
  function Nest(tags: seq<string>, body: string): string
  {
    if |tags| == 0 then body else OpenTag(tags[0]) + Nest(tags[1..], body) + CloseTag(tags[0])
  }

  /** What `term(term, xpath, escape)` returns. */
  function TermOf(term: string, xpath: Option<string>, escape: bool): string
  {
    var tags := Tags(xpath);
    Opens(tags) + (if escape then Escape(term) else term) + Closes(tags)
  }

  lemma {:induction false} NonEmptySnoc(parts: seq<string>, i: nat)
    requires i < |parts|
    ensures NonEmpty(parts[..i + 1]) == NonEmpty(parts[..i]) + (if parts[i] != "" then [parts[i]] else [])
  {
    assert parts[..i + 1][..i] == parts[..i];
  }

  lemma {:induction false} OpensClosesSnoc(tags: seq<string>, tag: string)
    ensures Opens(tags + [tag]) == Opens(tags) + OpenTag(tag)
    ensures Closes(tags + [tag]) == CloseTag(tag) + Closes(tags)
  {
    assert (tags + [tag])[..|tags|] == tags;
  }

  lemma {:induction false} NestSnoc(tags: seq<string>, last: string, body: string)
    ensures Nest(tags + [last], body) == Nest(tags, OpenTag(last) + body + CloseTag(last))
  {
    if |tags| > 0 {
      assert (tags + [last])[1..] == tags[1..] + [last];
      NestSnoc(tags[1..], last, body);
    }
  }

  lemma {:induction false} OpensClosesNest(tags: seq<string>, body: string)
    ensures Opens(tags) + body + Closes(tags) == Nest(tags, body)
  {
    if |tags| > 0 {
      var init, last := tags[..|tags| - 1], tags[|tags| - 1];
      var o, c := OpenTag(last), CloseTag(last);
      calc {
        Opens(tags) + body + Closes(tags);
        (Opens(init) + o) + body + (c + Closes(init));
        { Regroup(Opens(init), o, body, c, Closes(init)); }
        Opens(init) + (o + body + c) + Closes(init);
        { OpensClosesNest(init, o + body + c); }
        Nest(init, o + body + c);
        { NestSnoc(init, last, body); assert init + [last] == tags; }
        Nest(tags, body);
      }
    }
  }

  lemma {:induction false} Regroup(a: string, b: string, c: string, d: string, e: string)
    ensures (a + b) + c + (d + e) == a + (b + c + d) + e
  {
  }

  /** One step of the loop in `term` for a non-empty segment: its tags join both ends. */
  lemma {:induction false} TermStepTag(prefix: seq<string>, postfix: seq<string>, tags: seq<string>, i: nat)
    requires i < |tags| && tags[i] != ""
    requires Text.Concat(prefix) == Opens(NonEmpty(tags[..i]))
    requires Text.Concat(postfix) == Closes(NonEmpty(tags[..i]))
    ensures Text.Concat(prefix + [OpenTag(tags[i])]) == Opens(NonEmpty(tags[..i + 1]))
    ensures Text.Concat([CloseTag(tags[i])] + postfix) == Closes(NonEmpty(tags[..i + 1]))
  {
    var tag := tags[i];
    NonEmptySnoc(tags, i);
    OpensClosesSnoc(NonEmpty(tags[..i]), tag);
    Text.ConcatAppend(prefix, [OpenTag(tag)]);
    assert Text.Concat([OpenTag(tag)]) == OpenTag(tag) + "";
    assert ([CloseTag(tag)] + postfix)[1..] == postfix;
  }

  /** One step of the loop in `term` for an empty segment: nothing changes. */
  lemma {:induction false} TermStepEmpty(tags: seq<string>, i: nat)
    requires i < |tags| && tags[i] == ""
    ensures NonEmpty(tags[..i + 1]) == NonEmpty(tags[..i])
  {
    NonEmptySnoc(tags, i);
    assert NonEmpty(tags[..i]) + [] == NonEmpty(tags[..i]);
  }

  /** The three parts of a term, concatenated. */
  lemma {:induction false} ConcatAround(prefix: seq<string>, body: string, postfix: seq<string>)
    ensures Text.Concat(prefix + [body] + postfix) == Text.Concat(prefix) + body + Text.Concat(postfix)
  {
    Text.ConcatAppend(prefix, [body]);
    Text.ConcatAppend(prefix + [body], postfix);
    assert Text.Concat([body]) == body + "";
  }

  /**
   * With a path the term sits inside properly nested tags: the opening tags
   * follow the path and the closing tags the reverse path, empty segments
   * contributing neither.
   */
  lemma {:induction false} TermIsNested(term: string, xpath: Option<string>, escape: bool)
    ensures TermOf(term, xpath, escape) == Nest(Tags(xpath), if escape then Escape(term) else term)
  {
    OpensClosesNest(Tags(xpath), if escape then Escape(term) else term);
  }

  /** Without a path (None or empty) the result is the term itself, escaped when asked. */
  lemma {:induction false} TermWithoutPath(term: string, xpath: Option<string>, escape: bool)
    requires xpath == None || xpath == Some("")
    ensures TermOf(term, xpath, escape) == if escape then Escape(term) else term
  {
    if xpath.Some? {
      assert Text.Split("", '/') == [""];
      assert [""][..0] == [];
      assert NonEmpty([""]) == [];
    }
    assert Tags(xpath) == [];
    var body := if escape then Escape(term) else term;
    assert Opens([]) + body + Closes([]) == body;
  }

  /** The method form of `term`, building the tag lists in a loop as the source does. */
  method Term(term: string, xpath: Option<string>, escape: bool) returns (r: string)
    ensures r == TermOf(term, xpath, escape)
  {
    var prefix: seq<string> := [];
    var postfix: seq<string> := [];
    if xpath.Some? && xpath.value != "" {
      var tags := Text.Split(xpath.value, '/');
      var i := 0;
      while i < |tags|
        invariant 0 <= i <= |tags|
        invariant Text.Concat(prefix) == Opens(NonEmpty(tags[..i]))
        invariant Text.Concat(postfix) == Closes(NonEmpty(tags[..i]))
      {
        var tag := tags[i];
        if tag != "" {
          TermStepTag(prefix, postfix, tags, i);
          prefix := prefix + [OpenTag(tag)];
          postfix := [CloseTag(tag)] + postfix;
        } else {
          TermStepEmpty(tags, i);
        }
        i := i + 1;
      }
      assert tags[..|tags|] == tags;
    } else if xpath.Some? {
      assert Text.Split("", '/') == [""];
      assert NonEmpty([""]) == NonEmpty([]) + [];
    }
    var body := if escape then Escape(term) else term;
    ConcatAround(prefix, body, postfix);
    r := Text.Concat(prefix + [body] + postfix);
  }

  // ---------------------------------------------------------------------------
  // Queries from nested mappings

  /**
   * A query mapping value: a text, or a nested mapping given as its items in
   * the mapping's iteration order.
   */
  datatype QueryValue = QText(text: string) | QDict(entries: seq<(string, QueryValue)>)

  /** What `terms_from_dict` returns for the items of `q` from position `i` on. */
  function TermsFrom(q: QueryValue, i: nat): string
    requires q.QDict? && i <= |q.entries|
    decreases q, 0, |q.entries| - i
  {
    if i == |q.entries| then "" else ItemOf(q.entries[i].0, q.entries[i].1) + TermsFrom(q, i + 1)
  }

  /** The term one item contributes: a text is escaped, a nested mapping is not escaped again. */
  function ItemOf(xpath: string, value: QueryValue): string
    decreases value, 1, 0
  {
    match value
    case QText(t) => TermOf(t, Some(xpath), true)
    case QDict(_) => TermOf(TermsFrom(value, 0), Some(xpath), false)
  }

  /** The method form of `terms_from_dict`: one term per item, accumulated in a loop. */
  method TermsFromDict(source: QueryValue) returns (parsed: string)
    requires source.QDict?
    ensures parsed == TermsFrom(source, 0)
    decreases source, 0
  {
    parsed := "";
    var i := 0;
    while i < |source.entries|
      invariant 0 <= i <= |source.entries|
      invariant parsed + TermsFrom(source, i) == TermsFrom(source, 0)
    {
      assert source.entries[i] in source.entries;
      var piece := Item(source.entries[i].0, source.entries[i].1);
      TermsFromStep(source, i, parsed, piece);
      parsed := parsed + piece;
      i := i + 1;
    }
  }

  lemma {:induction false} TermsFromStep(q: QueryValue, i: nat, parsed: string, piece: string)
    requires q.QDict? && i < |q.entries|
    requires piece == ItemOf(q.entries[i].0, q.entries[i].1)
    requires parsed + TermsFrom(q, i) == TermsFrom(q, 0)
    ensures (parsed + piece) + TermsFrom(q, i + 1) == TermsFrom(q, 0)
  {
    assert TermsFrom(q, i) == piece + TermsFrom(q, i + 1);
  }

  /** The loop body of `terms_from_dict` for one item. */
  method Item(xpath: string, value: QueryValue) returns (piece: string)
    ensures piece == ItemOf(xpath, value)
    decreases value, 1
  {
    if value.QDict? {
      var inner := TermsFromDict(value);
      piece := Term(inner, Some(xpath), false);
    } else {
      piece := Term(value.text, Some(xpath), true);
    }
  }

  /**
   * A text item becomes its escaped text nested in the item's path; a nested
   * mapping is rendered first and then nested without being escaped again.
   */
  lemma {:induction false} ItemTerm(q: QueryValue, i: nat)
    requires q.QDict? && i < |q.entries|
    ensures var (xpath, value) := q.entries[i];
            TermsFrom(q, i) == (match value
              case QText(t) => Nest(Tags(Some(xpath)), Escape(t))
              case QDict(_) => Nest(Tags(Some(xpath)), TermsFrom(value, 0))) + TermsFrom(q, i + 1)
  {
    var (xpath, value) := q.entries[i];
    match value
    case QText(t) => TermIsNested(t, Some(xpath), true);
    case QDict(_) => TermIsNested(TermsFrom(value, 0), Some(xpath), false);
  }

  // ---------------------------------------------------------------------------
  // Combinators

  /** An argument of `and_terms` / `or_terms`: a term, or a list of terms. */
  datatype QueryArg = One(term: string) | Many(terms: seq<string>)

  function ArgText(a: QueryArg): string
  {
    match a
    case One(t) => t
    case Many(ts) => Text.Join(ts, " ")
  }

  function ArgTexts(args: seq<QueryArg>): seq<string>
  {
    seq(|args|, i requires 0 <= i < |args| => ArgText(args[i]))
  }

  /** All terms of the arguments, lists spread out, in order. */
  function Flatten(args: seq<QueryArg>): seq<string>
  {
    if |args| == 0 then []
    else (match args[0] case One(t) => [t] case Many(ts) => ts) + Flatten(args[1..])
  }

  /** `and_terms(*args)`: the space-joined terms inside parentheses. */
  function AndTerms(args: seq<QueryArg>): (r: string)
    ensures |r| >= 2 && r[0] == '(' && r[|r| - 1] == ')'
    ensures r[1..|r| - 1] == Text.Join(ArgTexts(args), " ")
  {
    "(" + Text.Join(ArgTexts(args), " ") + ")"
  }

  /** `or_terms(*args)`: the space-joined terms inside braces. */
  function OrTerms(args: seq<QueryArg>): (r: string)
    ensures |r| >= 2 && r[0] == '{' && r[|r| - 1] == '}'
    ensures r[1..|r| - 1] == Text.Join(ArgTexts(args), " ")
  {
    "{" + Text.Join(ArgTexts(args), " ") + "}"
  }

  /** `not_term(term)`: the term behind a tilde, which dropping the first character undoes. */
  function NotTerm(term: string): (r: string)
    ensures |r| == |term| + 1 && r[0] == '~' && r[1..] == term
  {
    "~" + term
  }

  /**
   * A list argument means the same as its terms given one by one, as long as
   * no list is empty (an empty list would add an empty term).
   */
  lemma {:induction false} ListArgumentsSpread(args: seq<QueryArg>)
    requires forall a <- args :: a.Many? ==> a.terms != []
    ensures Text.Join(ArgTexts(args), " ") == Text.Join(Flatten(args), " ")
    ensures AndTerms(args) == "(" + Text.Join(Flatten(args), " ") + ")"
    ensures OrTerms(args) == "{" + Text.Join(Flatten(args), " ") + "}"
  {
    if |args| > 0 {
      var head := match args[0] case One(t) => [t] case Many(ts) => ts;
      assert args[0] in args;
      ListArgumentsSpread(args[1..]);
      assert ArgTexts(args[1..]) == ArgTexts(args)[1..];
      if |args| > 1 {
        assert args[1] in args;
        assert |Flatten(args[1..])| > 0 by {
          assert args[1..][0] == args[1];
        }
        Text.JoinAppend(head, Flatten(args[1..]), " ");
      } else {
        assert Flatten(args) == head + [];
        assert head + [] == head;
      }
      if args[0].One? {
        assert Text.Join(head, " ") == args[0].term;
      }
    }
  }
}
