/** The client helpers of `lib/api.ts`: the radio ID ordering, comment
    composition, query strings, and the request sequences of the radio and
    log helpers, run against the route models (a `fetch` is a direct call
    of the route method). */
module Api {
  import opened Json
  import opened Types
  import opened Strings
  import opened Seqs
  import opened Http
  import opened ArraySort
  import opened CheckoutLogRoute
  import opened RadiosRoute
  import opened UsersRoute

  // ---------------------------------------------------------------------
  // Radio IDs and their order

  /** The length of the run of ASCII letters that starts `s`. */
  function LeadingLetters(s: string): (n: nat)
    ensures n <= |s| && AllLetters(s[..n])
    ensures n < |s| ==> !IsLetter(s[n])
  {
    if s == [] || !IsLetter(s[0]) then 0
    else
      var n := 1 + LeadingLetters(s[1..]);
      assert s[..n] == [s[0]] + s[1..][..n - 1];
      n
  }

  /** A run of letters ended by a non-letter is the leading run. */
  lemma {:induction false} LetterRunUnique(s: string, k: nat)
    requires k < |s| && AllLetters(s[..k]) && !IsLetter(s[k])
    ensures LeadingLetters(s) == k
  {
    if k > 0 {
      assert IsLetter(s[..k][0]);
      assert s[1..][..k - 1] == s[..k][1..];
      LetterRunUnique(s[1..], k - 1);
    }
  }

  /** `id.match(/^([a-zA-Z]*)(\d+)$/)`: the letters and the digits of an ID
      made of letters followed by at least one digit. The split, when there
      is one, is the only one. */
  function MatchId(id: string): (r: Option<(string, string)>)
    ensures r.Some? ==> r.value.0 + r.value.1 == id && AllLetters(r.value.0) && r.value.1 != "" && AllDigits(r.value.1)
    ensures forall k :: 0 <= k < |id| && AllLetters(id[..k]) && AllDigits(id[k..]) ==> r == Some((id[..k], id[k..]))
  {
    var n := LeadingLetters(id);
    assert forall k :: 0 <= k < |id| && AllLetters(id[..k]) && AllDigits(id[k..]) ==> k == n by {
      forall k | 0 <= k < |id| && AllLetters(id[..k]) && AllDigits(id[k..]) ensures k == n {
        assert IsDigit(id[k..][0]);
        LetterRunUnique(id, k);
      }
    }
    if n < |id| && AllDigits(id[n..]) then
      assert id[..n] + id[n..] == id;
      Some((id[..n], id[n..]))
    else
      None
  }

  /** The model letters and index digits of an ID; `''` and `''` when the ID
      does not match. */
  function IdParts(id: string): (r: (string, string))
    ensures AllLetters(r.0) && AllDigits(r.1)
    ensures MatchId(id).None? ==> r == ("", "")
    ensures MatchId(id).Some? ==> r.0 + r.1 == id
  {
    match MatchId(id)
    case Some(parts) => parts
    case None => ("", "")
  }

  /** `sortRadios`' comparator: radios without a model letter prefix first,
      then models in alphabetical order, then indexes in numerical order
      (`Number('')` is 0). */
  function RadioOrder(a: Radio, b: Radio): int {
    var (modelA, indexA) := IdParts(a.id);
    var (modelB, indexB) := IdParts(b.id);
    if modelA != modelB then
      if modelA == "" then -1
      else if modelB == "" then 1
      else Compare(modelA, modelB)
    else DigitsValue(indexA) - DigitsValue(indexB)
  }

  /** The empty-model cases agree with comparing the models: the order is
      lexicographic on (model, index). */
  lemma RadioOrderLexicographic(a: Radio, b: Radio)
    ensures var (modelA, indexA) := IdParts(a.id);
      var (modelB, indexB) := IdParts(b.id);
      RadioOrder(a, b) == if modelA != modelB then Compare(modelA, modelB) else DigitsValue(indexA) - DigitsValue(indexB)
  {
  }

  /** An ID made of letters and then digits splits there. */
  lemma IdPartsOf(model: string, digits: string)
    requires AllLetters(model) && digits != "" && AllDigits(digits)
    ensures IdParts(model + digits) == (model, digits)
  {
    var id := model + digits;
    assert id[..|model|] == model && id[|model|..] == digits;
  }

  /** Radios with the same model are ordered by the value of their index,
      not by its text: `TR2` comes before `TR10`. */
  lemma SameModelByIndex(a: Radio, b: Radio, model: string, indexA: string, indexB: string)
    requires AllLetters(model)
    requires indexA != "" && AllDigits(indexA) && indexB != "" && AllDigits(indexB)
    requires a.id == model + indexA && b.id == model + indexB
    ensures RadioOrder(a, b) == DigitsValue(indexA) - DigitsValue(indexB)
  {
    IdPartsOf(model, indexA);
    IdPartsOf(model, indexB);
  }

  lemma RadioOrderAntisymmetric(a: Radio, b: Radio)
    ensures RadioOrder(a, b) > 0 ==> RadioOrder(b, a) <= 0
  {
    RadioOrderLexicographic(a, b);
    RadioOrderLexicographic(b, a);
    CompareAntisymmetric(IdParts(a.id).0, IdParts(b.id).0);
  }

  lemma RadioOrderTransitive(a: Radio, b: Radio, c: Radio)
    requires RadioOrder(a, b) <= 0 && RadioOrder(b, c) <= 0
    ensures RadioOrder(a, c) <= 0
  {
    RadioOrderLexicographic(a, b);
    RadioOrderLexicographic(b, c);
    RadioOrderLexicographic(a, c);
    var ma, mb, mc := IdParts(a.id).0, IdParts(b.id).0, IdParts(c.id).0;
    if ma != mb && mb != mc {
      CompareTransitive(ma, mb, mc);
      if ma == mc {
        CompareAntisymmetric(ma, mb);
        CompareZero(ma, mb);
      }
    }
  }

  predicate AnyRadio(r: Radio) { true }

  /** The comparator is a total preorder on all radios, so the sort it
      drives leaves the list ordered. */
  lemma RadioOrderConsistent()
    ensures ConsistentOn(RadioOrder, AnyRadio)
  {
    forall a, b | AnyRadio(a) && AnyRadio(b) && RadioOrder(a, b) > 0 ensures RadioOrder(b, a) <= 0 {
      RadioOrderAntisymmetric(a, b);
    }
    forall a, b, c | AnyRadio(a) && AnyRadio(b) && AnyRadio(c) && RadioOrder(a, b) <= 0 && RadioOrder(b, c) <= 0
      ensures RadioOrder(a, c) <= 0
    {
      RadioOrderTransitive(a, b, c);
    }
  }

  /** `sortRadios` on the array of a response: the same radios, ordered by ID. */
  method SortRadios(radios: seq<Radio>) returns (r: seq<Radio>)
    ensures multiset(r) == multiset(radios)
    ensures SortedBy(RadioOrder, r)
  {
    var a := new Radio[|radios|](i requires 0 <= i < |radios| => radios[i]);
    assert a[..] == radios;
    RadioOrderConsistent();
    SortInPlace(a, RadioOrder, AnyRadio);
    r := a[..];
  }

  // ---------------------------------------------------------------------
  // Comments

  /** The text `appendRadioComment` adds: `[<timestamp> by <user>] <comment>`. */
  function CommentLine(timestamp: string, userName: string, comment: string): string {
    "[" + timestamp + " by " + userName + "] " + comment
  }

  /** The radio's comments with a new line appended after a newline, or the
      line alone when there were no comments. */
  function ComposeComment(existing: Option<string>, timestamp: string, userName: string, comment: string): (r: string)
    ensures Truthy(existing) ==> r == existing.value + "\n" + CommentLine(timestamp, userName, comment)
    ensures !Truthy(existing) ==> r == CommentLine(timestamp, userName, comment)
  {
    (if Truthy(existing) then existing.value + "\n" else "") + CommentLine(timestamp, userName, comment)
  }

  /** Earlier comments survive as a prefix, and the new line ends the text. */
  lemma ComposeKeepsHistory(existing: string, timestamp: string, userName: string, comment: string)
    requires existing != ""
    ensures var r := ComposeComment(Some(existing), timestamp, userName, comment);
      StartsWith(r, existing + "\n") && EndsWith(r, CommentLine(timestamp, userName, comment))
  {
    var r := ComposeComment(Some(existing), timestamp, userName, comment);
    var line := CommentLine(timestamp, userName, comment);
    assert r == existing + "\n" + line;
    assert r[..|existing| + 1] == existing + "\n";
    assert r[|r| - |line|..] == line;
  }

  /** The comment `reportDamage` appends. */
  function DamageReport(comment: string): (r: string)
    ensures StartsWith(r, "Damage Report: ") && EndsWith(r, comment) && |r| == 15 + |comment|
  {
    var r := "Damage Report: " + comment;
    assert r[..15] == "Damage Report: " && r[|r| - |comment|..] == comment;
    r
  }

  /** The comment `reportNonFunctional` appends. */
  function NonfunctionalReport(comment: string): (r: string)
    ensures StartsWith(r, "Nonfunctional Report: ") && EndsWith(r, comment) && |r| == 22 + |comment|
  {
    var r := "Nonfunctional Report: " + comment;
    assert r[..22] == "Nonfunctional Report: " && r[|r| - |comment|..] == comment;
    r
  }

  // ---------------------------------------------------------------------
  // Query strings

  /** `GetByParams`: a radio ID or a user ID. */
  datatype GetByParams = ByRadio(radioID: string) | ByUser(userID: string)

  /** The query suffix `?radioID=<id>` or `?userID=<id>`; the value is not encoded. */
  function QuerySuffix(params: GetByParams): string {
    "?" + ParamKey(params) + "=" + ParamValue(params)
  }

  /** The name of the parameter: `radioID` or `userID`. */
  function ParamKey(params: GetByParams): string {
    match params
    case ByRadio(_) => "radioID"
    case ByUser(_) => "userID"
  }

  function ParamValue(params: GetByParams): string {
    match params
    case ByRadio(id) => id
    case ByUser(id) => id
  }

  function LogUrl(baseUrl: string, params: GetByParams): string {
    baseUrl + "/api/admin/checkout-log" + QuerySuffix(params)
  }

  // Before a query is read, the URL parser behind `fetch` and `new URL`
  // cleans its input: C0 controls and spaces are trimmed from both ends,
  // then every ASCII tab and newline is removed.

  /** A C0 control or a space: trimmed from both ends of a URL. */
  predicate IsC0OrSpace(c: char) { c <= ' ' }

  /** An ASCII tab or newline: removed from anywhere in a URL. */
  predicate IsTabOrNewline(c: char) { c == '\t' || c == '\n' || c == '\r' }

  function NotTabOrNewline(): char -> bool {
    (c: char) => !IsTabOrNewline(c)
  }

  /** The text without its leading C0 controls and spaces. */
  function TrimStart(s: string): (r: string)
    ensures |r| <= |s| && r == s[|s| - |r|..]
    ensures forall i :: 0 <= i < |s| - |r| ==> IsC0OrSpace(s[i])
    ensures r != [] ==> !IsC0OrSpace(r[0])
  {
    if s != [] && IsC0OrSpace(s[0]) then TrimStart(s[1..]) else s
  }

  /** The text without its trailing C0 controls and spaces. */
  function TrimEnd(s: string): (r: string)
    ensures |r| <= |s| && r == s[..|r|]
    ensures forall i :: |r| <= i < |s| ==> IsC0OrSpace(s[i])
    ensures r != [] ==> !IsC0OrSpace(r[|r| - 1])
  {
    if s != [] && IsC0OrSpace(s[|s| - 1]) then TrimEnd(s[..|s| - 1]) else s
  }

  /** The text without its tabs and newlines. */
  function StripTabs(s: string): string {
    Filter(s, NotTabOrNewline())
  }

  /** The input the URL parser works on. */
  function ParserInput(url: string): string {
    StripTabs(TrimEnd(TrimStart(url)))
  }

  /** What the URL parser keeps of a value that ends the URL. */
  function ReceivedValue(value: string): string {
    StripTabs(TrimEnd(value))
  }

  lemma {:induction false} TrimStartAppend(a: string, b: string)
    requires b != [] && !IsC0OrSpace(b[0])
    ensures TrimStart(a + b) == TrimStart(a) + b
  {
    if a == [] {
      assert a + b == b;
    } else if IsC0OrSpace(a[0]) {
      assert (a + b)[1..] == a[1..] + b;
      TrimStartAppend(a[1..], b);
    }
  }

  lemma {:induction false} TrimEndAppend(a: string, b: string)
    requires a != [] && !IsC0OrSpace(a[|a| - 1])
    ensures TrimEnd(a + b) == a + TrimEnd(b)
  {
    if b == [] {
      assert a + b == a;
    } else if IsC0OrSpace(b[|b| - 1]) {
      assert (a + b)[..|a + b| - 1] == a + b[..|b| - 1];
      TrimEndAppend(a, b[..|b| - 1]);
    }
  }

  lemma StripTabsAppend(a: string, b: string)
    ensures StripTabs(a + b) == StripTabs(a) + StripTabs(b)
  {
    FilterAppend(a, b, NotTabOrNewline());
  }

  lemma StripTabsKeeps(s: string)
    requires forall i :: 0 <= i < |s| ==> !IsTabOrNewline(s[i])
    ensures StripTabs(s) == s
  {
    FilterKeepsAll(s, NotTabOrNewline());
  }

  lemma TrimEndKeeps(s: string)
    requires s != [] && !IsC0OrSpace(s[|s| - 1])
    ensures TrimEnd(s) == s
  {
  }

  lemma StripTabsDrops(t: char)
    requires IsTabOrNewline(t)
    ensures StripTabs([t]) == []
  {
    FilterDropsAll([t], NotTabOrNewline());
  }

  lemma StripTabsMember(s: string, c: char)
    ensures c in StripTabs(s) <==> c in s && !IsTabOrNewline(c)
  {
    FilterMember(s, NotTabOrNewline(), c);
  }

  /** A prefix that does not end in a C0 control or space is kept, less its
      tabs and newlines, in front of what is kept of the rest. */
  lemma ReceivedAfter(a: string, b: string)
    requires a != [] && !IsC0OrSpace(a[|a| - 1])
    ensures ReceivedValue(a + b) == StripTabs(a) + ReceivedValue(b)
  {
    TrimEndAppend(a, b);
    StripTabsAppend(a, TrimEnd(b));
  }

  /** The URL without its fragment: everything before the first `#`. */
  function WithoutFragment(url: string): (r: string)
    ensures '#' !in r && |r| <= |url| && r == url[..|r|]
    ensures '#' !in url ==> r == url
  {
    match IndexOf(url, '#')
    case None => url
    case Some(k) => url[..k]
  }

  /** The query of a cleaned URL: what follows the first `?` of the URL
      without its fragment. */
  function RawQuery(u: string): Option<string> {
    var v := WithoutFragment(u);
    match IndexOf(v, '?')
    case None => None
    case Some(q) => Some(v[q + 1..])
  }

  /** The query string `new URL(url)` gives. */
  function QueryString(url: string): Option<string> {
    RawQuery(ParserInput(url))
  }

  /** Form decoding of a name or a value: `+` is a space. */
  function FormDecode(s: string): (r: string)
    ensures |r| == |s|
    ensures forall i :: 0 <= i < |s| ==> r[i] == (if s[i] == '+' then ' ' else s[i])
  {
    ReplaceChars(s, (c: char) => c == '+', ' ')
  }

  /** The name of a `name=value` pair: up to its first `=`, or all of it. */
  function PairName(pair: string): string {
    match IndexOf(pair, '=')
    case None => pair
    case Some(k) => pair[..k]
  }

  /** The value of a `name=value` pair: after its first `=`, or empty. */
  function PairValue(pair: string): string {
    match IndexOf(pair, '=')
    case None => ""
    case Some(k) => pair[k + 1..]
  }

  /** The decoded value of the first pair whose decoded name is `key`. */
  function FirstValue(pairs: seq<string>, key: string): (r: Option<string>)
    ensures r.None? <==> forall k :: 0 <= k < |pairs| ==> FormDecode(PairName(pairs[k])) != key
  {
    if pairs == [] then None
    else if FormDecode(PairName(pairs[0])) == key then Some(FormDecode(PairValue(pairs[0])))
    else FirstValue(pairs[1..], key)
  }

  /** `new URL(url).searchParams.get(key)`: the query string split at `&`
      into pairs, and the value of the first pair named `key`. */
  function SearchParam(url: string, key: string): Option<string> {
    match QueryString(url)
    case None => None
    case Some(query) => FirstValue(Split(query, '&'), key)
  }

  /** The query the checkout log route reads from a URL: its `radioID` and
      its `userID` parameters. */
  function LogQueryOf(url: string): (q: LogQuery)
    ensures q.radioID == SearchParam(url, "radioID") && q.userID == SearchParam(url, "userID")
  {
    LogQuery(SearchParam(url, "radioID"), SearchParam(url, "userID"))
  }

  /** What a value pasted unencoded after `key=` at the end of a URL reads
      back as: what the URL parser keeps of it, up to any `#` or `&`, with
      `+` decoded as a space. */
  function ReadBack(value: string): string {
    FormDecode(Split(WithoutFragment(ReceivedValue(value)), '&')[0])
  }

  /** The value brings in no further pair of the query. */
  predicate SinglePair(value: string) {
    '&' !in WithoutFragment(ReceivedValue(value))
  }

  /** A value without `&`, `#`, `+`, tabs or newlines, and not ending in a
      C0 control or space, reads back unchanged. */
  lemma ReadBackPlain(value: string)
    requires '&' !in value && '#' !in value && '+' !in value
    requires forall i :: 0 <= i < |value| ==> !IsTabOrNewline(value[i])
    requires value != [] ==> !IsC0OrSpace(value[|value| - 1])
    ensures ReadBack(value) == value
  {
    StripTabsKeeps(value);
    SplitWithoutSeparator(value, '&');
  }

  /** A trailing C0 control or space is trimmed: `12 ` reads back as `12`. */
  lemma ReadBackTrimsEnd(value: string, c: char)
    requires IsC0OrSpace(c)
    ensures ReadBack(value + [c]) == ReadBack(value)
  {
    assert (value + [c])[..|value|] == value;
  }

  /** A tab or newline inside a value is dropped: `A<tab>B` reads back as `AB`. */
  lemma ReadBackDropsTab(a: string, t: char, b: string)
    requires IsTabOrNewline(t) && b != [] && !IsC0OrSpace(b[|b| - 1])
    ensures ReadBack(a + [t] + b) == ReadBack(a + b)
  {
    ReceivedDropsTab(a, t, b);
  }

  lemma ReceivedDropsTab(a: string, t: char, b: string)
    requires IsTabOrNewline(t) && b != [] && !IsC0OrSpace(b[|b| - 1])
    ensures ReceivedValue(a + [t] + b) == ReceivedValue(a + b)
  {
    var x, y := a + [t] + b, a + b;
    assert x[|x| - 1] == b[|b| - 1] && y[|y| - 1] == b[|b| - 1];
    TrimEndKeeps(x);
    TrimEndKeeps(y);
    StripTabsAppend(a + [t], b);
    StripTabsAppend(a, [t]);
    StripTabsDrops(t);
    StripTabsAppend(a, b);
  }

  /** A prefix without `#` is kept whole by fragment removal. */
  lemma FragmentAfter(a: string, b: string)
    requires '#' !in a
    ensures WithoutFragment(a + b) == a + WithoutFragment(b)
  {
    IndexOfAfter(a, b, '#');
    if IndexOf(b, '#').Some? {
      var k := IndexOf(b, '#').value;
      assert (a + b)[..|a| + k] == a + b[..k];
    } else {
      assert '#' !in b;
    }
  }

  lemma NoCharAppend(a: string, c: char, d: char)
    requires d !in a && c != d
    ensures d !in a + [c]
  {
    forall k | 0 <= k < |a| + 1 ensures (a + [c])[k] != d {
      if k < |a| { assert (a + [c])[k] == a[k]; }
    }
  }

  /** What the parser keeps of `a` followed by a separator `d` and `b`. */
  lemma ReceivedAtSeparator(a: string, d: char, b: string)
    requires !IsC0OrSpace(d) && !IsTabOrNewline(d)
    ensures ReceivedValue(a + [d] + b) == StripTabs(a) + [d] + ReceivedValue(b)
  {
    ReceivedAfter(a + [d], b);
    StripTabsAppend(a, [d]);
    StripTabsKeeps([d]);
  }

  lemma FirstPieceAtAmpersand(a: string, b: string)
    requires '&' !in a && '#' !in a
    ensures Split(WithoutFragment(a + "&" + b), '&')[0] == a
  {
    var rest := "&" + WithoutFragment(b);
    NoCharAppend(a, '&', '#');
    FragmentAfter(a + "&", b);
    assert a + "&" + WithoutFragment(b) == a + rest;
    SplitFirstPiece(a, rest, '&');
    assert Split(rest, '&')[0] == "";
  }

  /** A value is cut at its first `&`: the rest is read as further pairs. */
  lemma ReadBackStopsAtAmpersand(a: string, b: string)
    requires '&' !in a && '#' !in a
    ensures ReadBack(a + "&" + b) == FormDecode(StripTabs(a))
  {
    ReceivedAtSeparator(a, '&', b);
    StripTabsMember(a, '&');
    StripTabsMember(a, '#');
    FirstPieceAtAmpersand(StripTabs(a), ReceivedValue(b));
  }

  /** A value is cut at its first `#`: the rest is the fragment. */
  lemma ReadBackStopsAtHash(a: string, b: string)
    requires '&' !in a && '#' !in a
    ensures ReadBack(a + "#" + b) == FormDecode(StripTabs(a))
  {
    ReceivedAtSeparator(a, '#', b);
    var a' := StripTabs(a);
    StripTabsMember(a, '&');
    StripTabsMember(a, '#');
    var v := a' + "#" + ReceivedValue(b);
    IndexOfAfter(a', "#" + ReceivedValue(b), '#');
    assert v == a' + ("#" + ReceivedValue(b));
    assert WithoutFragment(v) == a';
    SplitWithoutSeparator(a', '&');
  }

  /** The first `?` of `path + "?" + rest` is the one after `path`, and
      what follows it is `rest`. */
  lemma {:induction false} FirstQuestionMark(path: string, rest: string)
    requires '?' !in path
    ensures IndexOf(path + "?" + rest, '?') == Some(|path|)
    ensures (path + "?" + rest)[|path| + 1..] == rest
  {
    var url := path + "?" + rest;
    forall k | 0 <= k < |path| ensures url[k] != '?' {
      assert url[k] == path[k];
    }
    assert url[|path|] == '?';
  }

  /** A query key: non-empty, and nothing in it that the query syntax, form
      decoding or the URL parser's clean-up gives a meaning to. */
  predicate PlainKey(key: string) {
    && key != [] && '=' !in key && '&' !in key && '#' !in key && '+' !in key
    && forall i :: 0 <= i < |key| ==> !IsTabOrNewline(key[i])
  }

  /** The parser's input for `path?key=value`: the path trimmed at its start
      and without tabs or newlines, then the key, then what is kept of the
      value. */
  lemma CleanParamUrl(path: string, key: string, value: string)
    requires PlainKey(key)
    ensures ParserInput(path + "?" + key + "=" + value)
      == StripTabs(TrimStart(path)) + "?" + key + "=" + ReceivedValue(value)
  {
    var tail := "?" + key + "=";
    var u, v := StripTabs(TrimStart(path)), ReceivedValue(value);
    assert ParserInput(path + tail + value) == u + tail + v by {
      TailKeeps(key);
      CleanUrl(path, tail, value);
    }
    assert path + "?" + key + "=" + value == path + tail + value by {
      ConcatAssoc(path, "?" + key, "=");
      ConcatAssoc(path, "?", key);
    }
    assert u + "?" + key + "=" + v == u + tail + v by {
      ConcatAssoc(u, "?" + key, "=");
      ConcatAssoc(u, "?", key);
    }
  }

  lemma TrimStartBefore(path: string, tail: string, value: string)
    requires tail != [] && !IsC0OrSpace(tail[0])
    ensures TrimStart(path + tail + value) == (TrimStart(path) + tail) + value
  {
    ConcatAssoc(path, tail, value);
    TrimStartAppend(path, tail + value);
    ConcatAssoc(TrimStart(path), tail, value);
  }

  /** The parser's input for `path + tail + value`, where the middle is kept
      as it is. */
  lemma CleanUrl(path: string, tail: string, value: string)
    requires tail != [] && !IsC0OrSpace(tail[0]) && !IsC0OrSpace(tail[|tail| - 1])
    requires StripTabs(tail) == tail
    ensures ParserInput(path + tail + value) == StripTabs(TrimStart(path)) + tail + ReceivedValue(value)
  {
    var s := TrimStart(path);
    var url := path + tail + value;
    TrimStartBefore(path, tail, value);
    assert ReceivedValue((s + tail) + value) == StripTabs(s) + tail + ReceivedValue(value) by {
      ReceivedAfter(s + tail, value);
      StripTabsAppend(s, tail);
    }
    assert ParserInput(url) == ReceivedValue(TrimStart(url));
  }

  lemma TailKeeps(key: string)
    requires PlainKey(key)
    ensures var tail := "?" + key + "=";
      StripTabs(tail) == tail && !IsC0OrSpace(tail[0]) && !IsC0OrSpace(tail[|tail| - 1])
  {
    var tail := "?" + key + "=";
    forall i | 0 <= i < |tail| ensures !IsTabOrNewline(tail[i]) {
      if 0 < i <= |key| { assert tail[i] == key[i - 1]; }
    }
    StripTabsKeeps(tail);
  }

  /** The cleaned path still holds no `?` or `#`. */
  lemma CleanPathPlain(path: string)
    requires '?' !in path && '#' !in path
    ensures '?' !in StripTabs(TrimStart(path)) && '#' !in StripTabs(TrimStart(path))
  {
    var t := TrimStart(path);
    forall i | 0 <= i < |t| ensures t[i] != '?' && t[i] != '#' {
      assert t[i] == path[|path| - |t| + i];
    }
    StripTabsMember(t, '?');
    StripTabsMember(t, '#');
  }

  /** The URL `path?key=value` without its fragment. */
  lemma UnfragmentedParam(path: string, key: string, value: string)
    requires '?' !in path && '#' !in path && PlainKey(key)
    ensures WithoutFragment(path + "?" + key + "=" + value) == path + "?" + key + "=" + WithoutFragment(value)
  {
    var a := path + "?" + key + "=";
    assert '#' !in a by {
      forall k | 0 <= k < |a| ensures a[k] != '#' {
        if k < |path| { assert a[k] == path[k]; }
        else if |path| < k < |path| + 1 + |key| { assert a[k] == key[k - |path| - 1]; }
      }
    }
    FragmentAfter(a, value);
  }

  /** The pair `key=w`: its name is the key and its value is `w`. */
  lemma PairOfKey(key: string, w: string)
    requires PlainKey(key)
    ensures PairName(key + "=" + w) == key && PairValue(key + "=" + w) == w
    ensures FormDecode(key) == key
  {
    IndexOfAfter(key, "=" + w, '=');
    assert key + "=" + w == key + ("=" + w);
    assert (key + "=" + w)[..|key|] == key;
  }

  /** The query of the cleaned URL `path?key=value` is `key=` and the value
      up to its fragment. */
  lemma QueryOfParam(path: string, key: string, value: string)
    requires '?' !in path && '#' !in path && PlainKey(key)
    ensures RawQuery(path + "?" + key + "=" + value) == Some(key + "=" + WithoutFragment(value))
  {
    UnfragmentedParam(path, key, value);
    var rest := key + "=" + WithoutFragment(value);
    assert path + "?" + key + "=" + WithoutFragment(value) == path + "?" + rest;
    FirstQuestionMark(path, rest);
  }

  /** The query string of `path?key=value`: `key=` and what the parser
      keeps of the value, up to its fragment. */
  lemma QueryOfUrl(path: string, key: string, value: string)
    requires '?' !in path && '#' !in path && PlainKey(key)
    ensures QueryString(path + "?" + key + "=" + value) == Some(key + "=" + WithoutFragment(ReceivedValue(value)))
  {
    CleanParamUrl(path, key, value);
    CleanPathPlain(path);
    QueryOfParam(StripTabs(TrimStart(path)), key, ReceivedValue(value));
  }

  /** A parameter `key=value` alone in a URL's query reads back as
      `ReadBack(value)`; another key reads back as nothing unless the value
      brings in a further pair. */
  lemma {:induction false} ParamRoundTrip(path: string, key: string, value: string, other: string)
    requires '?' !in path && '#' !in path && PlainKey(key) && other != key
    ensures SearchParam(path + "?" + key + "=" + value, key) == Some(ReadBack(value))
    ensures SinglePair(value) ==> SearchParam(path + "?" + key + "=" + value, other) == None
  {
    QueryOfUrl(path, key, value);
    var w := WithoutFragment(ReceivedValue(value));
    var pairs := Split(key + "=" + w, '&');
    assert key + "=" + w == (key + "=") + w;
    SplitFirstPiece(key + "=", w, '&');
    var w0 := Split(w, '&')[0];
    assert pairs[0] == key + "=" + w0;
    PairOfKey(key, w0);
    if '&' !in w {
      SplitWithoutSeparator(w, '&');
      SplitWithoutSeparator(key + "=" + w, '&');
    }
  }

  /** Reading the log route's query of a built URL gives back the
      parameter it was built from, as `ReadBack` reads it, and nothing for
      the other key unless the value brings in a further pair. */
  lemma QueryRoundTrip(path: string, params: GetByParams)
    requires '?' !in path && '#' !in path
    ensures params.ByRadio? ==>
      && LogQueryOf(path + QuerySuffix(params)).radioID == Some(ReadBack(params.radioID))
      && (SinglePair(params.radioID) ==> LogQueryOf(path + QuerySuffix(params)).userID == None)
    ensures params.ByUser? ==>
      && LogQueryOf(path + QuerySuffix(params)).userID == Some(ReadBack(params.userID))
      && (SinglePair(params.userID) ==> LogQueryOf(path + QuerySuffix(params)).radioID == None)
  {
    var other := if params.ByRadio? then "userID" else "radioID";
    SuffixRoundTrip(path, ParamKey(params), ParamValue(params), other);
  }

  /** `ParamRoundTrip` for a suffix built as `QuerySuffix` builds it. */
  lemma SuffixRoundTrip(path: string, key: string, value: string, other: string)
    requires '?' !in path && '#' !in path && PlainKey(key) && other != key
    ensures SearchParam(path + ("?" + key + "=" + value), key) == Some(ReadBack(value))
    ensures SinglePair(value) ==> SearchParam(path + ("?" + key + "=" + value), other) == None
  {
    assert path + ("?" + key + "=" + value) == path + "?" + key + "=" + value;
    ParamRoundTrip(path, key, value, other);
  }

  /** A base URL holds neither a query nor a fragment. */
  predicate PlainBase(baseUrl: string) {
    '?' !in baseUrl && '#' !in baseUrl
  }

  /** A route path appended to a plain base holds no `?` or `#`. */
  lemma PlainPath(baseUrl: string, route: string)
    requires PlainBase(baseUrl) && PlainBase(route)
    ensures PlainBase(baseUrl + route)
  {
    var path := baseUrl + route;
    forall k | 0 <= k < |path| ensures path[k] != '?' && path[k] != '#' {
      if k < |baseUrl| { assert path[k] == baseUrl[k]; } else { assert path[k] == route[k - |baseUrl|]; }
    }
  }

  lemma LogUrlRoundTrip(baseUrl: string, params: GetByParams)
    requires PlainBase(baseUrl)
    ensures params.ByRadio? ==>
      && LogQueryOf(LogUrl(baseUrl, params)).radioID == Some(ReadBack(params.radioID))
      && (SinglePair(params.radioID) ==> LogQueryOf(LogUrl(baseUrl, params)).userID == None)
    ensures params.ByUser? ==>
      && LogQueryOf(LogUrl(baseUrl, params)).userID == Some(ReadBack(params.userID))
      && (SinglePair(params.userID) ==> LogQueryOf(LogUrl(baseUrl, params)).radioID == None)
  {
    var path := baseUrl + "/api/admin/checkout-log";
    PlainPath(baseUrl, "/api/admin/checkout-log");
    assert LogUrl(baseUrl, params) == path + QuerySuffix(params);
    QueryRoundTrip(path, params);
  }

  /** The URL `getUserById` fetches. */
  function UserUrl(baseUrl: string, userID: string): string {
    baseUrl + "/api/admin/users" + "?userID=" + userID
  }

  /** The users route reads back the id as `ReadBack` gives it. */
  lemma UserUrlRoundTrip(baseUrl: string, userID: string)
    requires PlainBase(baseUrl)
    ensures SearchParam(UserUrl(baseUrl, userID), "userID") == Some(ReadBack(userID))
  {
    var path := baseUrl + "/api/admin/users";
    PlainPath(baseUrl, "/api/admin/users");
    assert UserUrl(baseUrl, userID) == path + "?" + "userID" + "=" + userID;
    ParamRoundTrip(path, "userID", userID, "radioID");
  }

  // ---------------------------------------------------------------------
  // Request bodies

  /** The PUT-shaped body `checkOutRadio` sends. */
  function CheckOutBody(radioID: string, userID: string, now: string): RadioBody {
    RadioBody(Some(radioID), None, None, None, None, Present(userID), Present(now))
  }

  /** The body `checkInRadio` sends: both checkout properties null. */
  function CheckInBody(radioID: string): RadioBody {
    RadioBody(Some(radioID), None, None, None, None, Null, Null)
  }

  /** The check-out and check-in bodies carry no `Name`, which POST demands. */
  lemma CheckBodiesLackName(radioID: string, userID: string, now: string)
    ensures !Truthy(CheckOutBody(radioID, userID, now).name)
    ensures !Truthy(CheckInBody(radioID).name)
  {
  }

  /** A PUT of a radio's full body onto the stored radio with its ID and name
      gives exactly that radio, when all its properties are present and its
      flags are exclusive. */
  lemma FullPutRestores(stored: Radio, r: Radio)
    requires stored.id == r.id && stored.name == r.name && ExclusiveFlags(r)
    requires r.comments.Some? && r.partiallyDamaged.Some? && r.nonfunctional.Some?
    requires !r.checkedOutUser.Absent? && !r.checkoutDate.Absent?
    ensures UpdatedRadio(stored, FullBody(r)) == r
  {
    var u := UpdatedRadio(stored, FullBody(r));
    UpdatedKeepsUnsentFields(stored, FullBody(r));
    assert u.comments == r.comments;
    assert u.nonfunctional == r.nonfunctional;
    if r.nonfunctional.value {
      assert IsTrue(r.nonfunctional) && !IsTrue(r.partiallyDamaged);
      assert !r.partiallyDamaged.value;
      assert r.partiallyDamaged == Some(r.partiallyDamaged.value);
    }
  }

  /** The replacement `updateRadio` leaves behind is a fresh default radio,
      which differs from the radio it was given whenever that one had
      comments, damage or a user. */
  lemma ReplacementDropsFields(r: Radio)
    requires r.comments != Some("") || r.partiallyDamaged != Some(false) || r.nonfunctional != Some(false) || !r.checkedOutUser.Null?
    ensures NewRadio(r.id, r.name) != r
  {
  }

  /** What `getRadios` answers: one radio (possibly `undefined`) for a radio
      ID, a sorted list otherwise. */
  datatype RadiosAnswer = Single(radio: Option<Radio>) | List(radios: seq<Radio>)

  /** The helpers of `lib/api.ts`, against the radio route (and through it
      the checkout log) and the user route. */
  class Client {
    const baseUrl: string
    const radios: RadioInventory
    const users: UserRegistry

    constructor (baseUrl: string, radios: RadioInventory, users: UserRegistry)
      ensures this.baseUrl == baseUrl && this.radios == radios && this.users == users
    {
      this.baseUrl := baseUrl;
      this.radios := radios;
      this.users := users;
    }

    /** `getRadios(params)`: the route's whole list; for a radio ID its first
        element, whatever the ID; otherwise the list sorted by ID. */
    method GetRadios(params: Option<GetByParams>) returns (r: RadiosAnswer)
      modifies radios
      ensures radios.data == Some(old(radios.Radios()))
      ensures params.Some? && params.value.ByRadio? ==>
        r == Single(if old(radios.Radios()) == [] then None else Some(old(radios.Radios())[0]))
      ensures !(params.Some? && params.value.ByRadio?) ==>
        r.List? && multiset(r.radios) == multiset(old(radios.Radios())) && SortedBy(RadioOrder, r.radios)
    {
      var data := radios.Get();
      if params.Some? && params.value.ByRadio? {
        r := Single(if data == [] then None else Some(data[0]));
      } else {
        var sorted := SortRadios(data);
        r := List(sorted);
      }
    }

    /** The lookup `getRadios({ radioID })` is meant to be: the radio with that ID. */
    method FindRadio(radioID: string) returns (r: Option<Radio>)
      modifies radios
      ensures radios.data == Some(old(radios.Radios()))
      ensures r == Find(old(radios.Radios()), IdIs(radioID))
      ensures r.Some? ==> r.value.id == radioID
      ensures r.None? <==> forall k :: 0 <= k < |old(radios.Radios())| ==> old(radios.Radios())[k].id != radioID
    {
      var data := radios.Get();
      r := Find(data, IdIs(radioID));
    }

    /** `addRadio`: the message on success, None otherwise. */
    method AddRadio(id: string, name: string) returns (msg: Option<string>)
      modifies radios
      ensures id == "" || name == "" ==> msg == None && radios.data == old(radios.data)
      ensures id != "" && name != "" && FindIndex(old(radios.Radios()), IdIs(id)).Some? ==>
        msg == None && radios.data == Some(old(radios.Radios()))
      ensures id != "" && name != "" && FindIndex(old(radios.Radios()), IdIs(id)).None? ==>
        msg == Some("Radio added successfully") && radios.data == Some(old(radios.Radios()) + [NewRadio(id, name)])
    {
      var reply := radios.Post(RadioBody(Some(id), Some(name), None, None, None, Absent, Absent));
      msg := if Ok(reply) then Some(reply.message) else None;
    }

    /** `deleteRadio`: the message on success, None otherwise. */
    method DeleteRadio(id: string) returns (msg: Option<string>)
      modifies radios
      ensures id == "" ==> msg == None && radios.data == old(radios.data)
      ensures id != "" && FindIndex(old(radios.Radios()), IdIs(id)).None? ==>
        msg == None && radios.data == Some(old(radios.Radios()))
      ensures id != "" && FindIndex(old(radios.Radios()), IdIs(id)).Some? ==>
        msg == Some("Radio deleted successfully")
        && radios.data == Some(RemoveAt(old(radios.Radios()), FindIndex(old(radios.Radios()), IdIs(id)).value))
    {
      var reply := radios.Delete(Some(id));
      msg := if Ok(reply) then Some(reply.message) else None;
    }

    /** `checkOutRadio` as written: the guard reads the first radio of the
        list, and the update goes out as a POST, which the route refuses for
        want of a name. Nothing is ever checked out or logged. */
    method CheckOutRadio(radioID: string, userID: string, force: bool, now: string) returns (msg: Option<string>)
      modifies radios, radios.ledger
      ensures radios.data == Some(old(radios.Radios())) && radios.ledger.data == old(radios.ledger.data)
      ensures msg == if old(radios.Radios()) != [] && TruthyField(old(radios.Radios())[0].checkedOutUser) && !force
        then Some("Radio is already checked out.") else None
    {
      var existing := GetRadios(Some(ByRadio(radioID)));
      if existing.radio.Some? && TruthyField(existing.radio.value.checkedOutUser) && !force {
        return Some("Radio is already checked out.");
      }
      var reply := radios.Post(CheckOutBody(radioID, userID, now));
      msg := if Ok(reply) then Some(reply.message) else None;
    }

    /** `checkInRadio` as written: a POST, refused for want of a name. */
    method CheckInRadio(radioID: string) returns (msg: Option<string>)
      modifies radios
      ensures radios.data == old(radios.data)
      ensures msg == None
    {
      var reply := radios.Post(CheckInBody(radioID));
      msg := if Ok(reply) then Some(reply.message) else None;
    }

    /** `checkOutRadio` as intended: the guard reads the radio with the ID and
        the update goes out as a PUT, which sets the user and the date and
        logs the check-out. */
    method CheckOutRadioFixed(radioID: string, userID: string, force: bool, now: string) returns (msg: Option<string>)
      modifies radios, radios.ledger
      ensures var s := old(radios.Radios());
        var found := FindIndex(s, IdIs(radioID));
        var refused := found.Some? && TruthyField(s[found.value].checkedOutUser) && !force;
        && (refused ==>
              msg == Some("Radio is already checked out.")
              && radios.data == Some(s) && radios.ledger.data == old(radios.ledger.data))
        && (!refused && (radioID == "" || found.None?) ==>
              msg == None && radios.data == Some(s) && radios.ledger.data == old(radios.ledger.data))
        && (!refused && radioID != "" && found.Some? ==>
              var i := found.value;
              && msg == Some("Radio updated successfully")
              && radios.data == Some(s[i := s[i].(checkedOutUser := Present(userID), checkoutDate := Present(now))])
              && radios.ledger.data == LedgerAfter(old(radios.ledger.data), radioID,
                   Transition(s[i].checkedOutUser, Present(userID)), now))
    {
      var existing := FindRadio(radioID);
      if existing.Some? && TruthyField(existing.value.checkedOutUser) && !force {
        return Some("Radio is already checked out.");
      }
      var reply := radios.Put(CheckOutBody(radioID, userID, now), now);
      msg := if Ok(reply) then Some(reply.message) else None;
    }

    /** `checkInRadio` as intended: a PUT clearing the user and the date,
        which logs a check-in for the previous user. */
    method CheckInRadioFixed(radioID: string, now: string) returns (msg: Option<string>)
      modifies radios, radios.ledger
      ensures var s := old(radios.Radios());
        var found := FindIndex(s, IdIs(radioID));
        && (radioID == "" ==> msg == None && radios.data == old(radios.data) && radios.ledger.data == old(radios.ledger.data))
        && (radioID != "" && found.None? ==>
              msg == None && radios.data == Some(s) && radios.ledger.data == old(radios.ledger.data))
        && (radioID != "" && found.Some? ==>
              var i := found.value;
              && msg == Some("Radio updated successfully")
              && radios.data == Some(s[i := s[i].(checkedOutUser := Null, checkoutDate := Null)])
              && radios.ledger.data == LedgerAfter(old(radios.ledger.data), radioID,
                   Transition(s[i].checkedOutUser, Null), now))
    {
      var reply := radios.Put(CheckInBody(radioID), now);
      msg := if Ok(reply) then Some(reply.message) else None;
    }

    /** `updateRadio` as written: delete, re-add with the ID and name, then
        POST the whole radio, which the route refuses as a duplicate and whose
        answer is not read. The radio comes back as a default radio at the end
        of the list; a failed re-add loses it. */
    method UpdateRadio(r: Radio) returns (msg: Option<string>)
      modifies radios
      ensures var s := old(radios.Radios());
        var found := FindIndex(s, IdIs(r.id));
        && (r.id == "" ==> msg == None && radios.data == old(radios.data))
        && (r.id != "" && found.None? ==> msg == None && radios.data == Some(s))
        && (r.id != "" && found.Some? ==>
              var rest := RemoveAt(s, found.value);
              && (r.name == "" || FindIndex(rest, IdIs(r.id)).Some? ==> msg == None && radios.data == Some(rest))
              && (r.name != "" && FindIndex(rest, IdIs(r.id)).None? ==>
                    msg == Some("Radio updated successfully")
                    && radios.data == Some(rest + [NewRadio(r.id, r.name)])))
    {
      var deleted := DeleteRadio(r.id);
      if deleted.None? {
        return None;
      }
      var added := AddRadio(r.id, r.name);
      if added.None? {
        return None;
      }
      assert IdIs(r.id)(radios.Radios()[|radios.Radios()| - 1]);
      var _ := radios.Post(FullBody(r));
      return Some("Radio updated successfully");
    }

    /** `updateRadio` as intended: one PUT with every property. */
    method UpdateRadioFixed(r: Radio, now: string) returns (msg: Option<string>)
      modifies radios, radios.ledger
      ensures var s := old(radios.Radios());
        var found := FindIndex(s, IdIs(r.id));
        && (r.id == "" ==> msg == None && radios.data == old(radios.data) && radios.ledger.data == old(radios.ledger.data))
        && (r.id != "" && found.None? ==>
              msg == None && radios.data == Some(s) && radios.ledger.data == old(radios.ledger.data))
        && (r.id != "" && found.Some? ==>
              var i := found.value;
              && msg == Some("Radio updated successfully")
              && radios.data == Some(s[i := UpdatedRadio(s[i], FullBody(r))])
              && radios.ledger.data == LedgerAfter(old(radios.ledger.data), r.id,
                   Transition(s[i].checkedOutUser, r.checkedOutUser), now))
    {
      var reply := radios.Put(FullBody(r), now);
      msg := if Ok(reply) then Some(reply.message) else None;
    }

    /** `appendRadioComment` as written: the comment is composed onto the
        first radio of the list, whatever the ID, and `updateRadio` then
        replaces that radio by a default one: the comment is lost. With an
        empty list the source throws; the model answers None. */
    method AppendRadioComment(radioID: string, userName: string, comment: string, timestamp: string) returns (msg: Option<string>)
      modifies radios
      ensures var s := old(radios.Radios());
        && (s == [] ==> msg == None && radios.data == Some(s))
        && (s != [] && s[0].id != "" && s[0].name != "" && UniqueIds(s) ==>
              msg == Some("Radio updated successfully")
              && radios.data == Some(s[1..] + [NewRadio(s[0].id, s[0].name)]))
    {
      var answer := GetRadios(Some(ByRadio(radioID)));
      if answer.radio.None? {
        return None;
      }
      var radio := answer.radio.value;
      radio := radio.(comments := Some(ComposeComment(radio.comments, timestamp, userName, comment)));
      ghost var s := radios.Radios();
      assert IdIs(radio.id)(s[0]) && radio.name == s[0].name;
      assert FindIndex(s, IdIs(radio.id)) == Some(0);
      assert RemoveAt(s, 0) == s[1..];
      if UniqueIds(s) { RemoveUniqueLeavesNone(s, 0); }
      msg := UpdateRadio(radio);
    }

    /** `appendRadioComment` as intended: the comment is composed onto the
        radio with the ID and sent as a PUT of the comments alone. */
    method AppendRadioCommentFixed(radioID: string, userName: string, comment: string, timestamp: string) returns (msg: Option<string>)
      modifies radios, radios.ledger
      ensures radios.ledger.data == old(radios.ledger.data)
      ensures var s := old(radios.Radios());
        var found := FindIndex(s, IdIs(radioID));
        && (found.None? || radioID == "" ==> msg == None && radios.data == Some(s))
        && (found.Some? && radioID != "" ==>
              var i := found.value;
              && msg == Some("Radio updated successfully")
              && radios.data == Some(s[i := s[i].(comments := Some(ComposeComment(s[i].comments, timestamp, userName, comment)))]))
    {
      var radio := FindRadio(radioID);
      if radio.None? {
        return None;
      }
      var updated := ComposeComment(radio.value.comments, timestamp, userName, comment);
      var reply := radios.Put(RadioBody(Some(radioID), None, Some(updated), None, None, Absent, Absent), timestamp);
      msg := if Ok(reply) then Some(reply.message) else None;
    }

    /** `reportDamage` as written: a comment prefixed `Damage Report: `
        through the as-written `appendRadioComment`, so the first radio of the
        list is reset and moved to the end and the report is lost. */
    method ReportDamage(radioID: string, userName: string, comment: string, timestamp: string) returns (msg: Option<string>)
      modifies radios
      ensures var s := old(radios.Radios());
        && (s == [] ==> msg == None && radios.data == Some(s))
        && (s != [] && s[0].id != "" && s[0].name != "" && UniqueIds(s) ==>
              msg == Some("Radio updated successfully")
              && radios.data == Some(s[1..] + [NewRadio(s[0].id, s[0].name)]))
    {
      msg := AppendRadioComment(radioID, userName, DamageReport(comment), timestamp);
    }

    /** `reportNonFunctional` as written: the same path with the prefix
        `Nonfunctional Report: `. */
    method ReportNonFunctional(radioID: string, userName: string, comment: string, timestamp: string) returns (msg: Option<string>)
      modifies radios
      ensures var s := old(radios.Radios());
        && (s == [] ==> msg == None && radios.data == Some(s))
        && (s != [] && s[0].id != "" && s[0].name != "" && UniqueIds(s) ==>
              msg == Some("Radio updated successfully")
              && radios.data == Some(s[1..] + [NewRadio(s[0].id, s[0].name)]))
    {
      msg := AppendRadioComment(radioID, userName, NonfunctionalReport(comment), timestamp);
    }

    /** `reportDamage` as intended: the named radio gets the report line. */
    method ReportDamageFixed(radioID: string, userName: string, comment: string, timestamp: string) returns (msg: Option<string>)
      modifies radios, radios.ledger
      ensures radios.ledger.data == old(radios.ledger.data)
      ensures var s := old(radios.Radios());
        var found := FindIndex(s, IdIs(radioID));
        && (found.None? || radioID == "" ==> msg == None && radios.data == Some(s))
        && (found.Some? && radioID != "" ==>
              msg == Some("Radio updated successfully")
              && radios.data == Some(s[found.value := s[found.value].(comments :=
                   Some(ComposeComment(s[found.value].comments, timestamp, userName, DamageReport(comment))))]))
    {
      msg := AppendRadioCommentFixed(radioID, userName, DamageReport(comment), timestamp);
    }

    /** `reportNonFunctional` as intended: the named radio gets the report line. */
    method ReportNonFunctionalFixed(radioID: string, userName: string, comment: string, timestamp: string) returns (msg: Option<string>)
      modifies radios, radios.ledger
      ensures radios.ledger.data == old(radios.ledger.data)
      ensures var s := old(radios.Radios());
        var found := FindIndex(s, IdIs(radioID));
        && (found.None? || radioID == "" ==> msg == None && radios.data == Some(s))
        && (found.Some? && radioID != "" ==>
              msg == Some("Radio updated successfully")
              && radios.data == Some(s[found.value := s[found.value].(comments :=
                   Some(ComposeComment(s[found.value].comments, timestamp, userName, NonfunctionalReport(comment))))]))
    {
      msg := AppendRadioCommentFixed(radioID, userName, NonfunctionalReport(comment), timestamp);
    }

    /** `addLogEntry`: the message on success, None when the log refuses. */
    method AddLogEntry(radioID: string, userID: string, operation: string, now: string) returns (msg: Option<string>)
      modifies radios.ledger
      ensures radioID == "" || userID == "" || operation == "" ==>
        msg == None && radios.ledger.data == old(radios.ledger.data)
      ensures radioID != "" && userID != "" && operation != "" ==>
        msg == Some("Log entry added successfully")
        && radios.ledger.data == Some(old(radios.ledger.Entries()) + [LogEntry(radioID, userID, operation, now)])
    {
      var reply := radios.ledger.Post(LogBody(Some(radioID), Some(userID), Some(operation)), now);
      msg := if Ok(reply) then Some(reply.message) else None;
    }

    /** `getLogEntries(params)`: the route reads the query of the URL; it
        filters by the `radioID` it reads back, so asking by user returns
        the whole log unless the user ID brings in a `radioID` pair. */
    method GetLogEntries(params: GetByParams) returns (r: seq<LogEntry>)
      requires PlainBase(baseUrl)
      modifies radios.ledger
      ensures radios.ledger.data == Some(old(radios.ledger.Entries()))
      ensures params.ByRadio? && ReadBack(params.radioID) != "" ==>
        r == ForRadio(old(radios.ledger.Entries()), ReadBack(params.radioID))
      ensures params.ByRadio? && ReadBack(params.radioID) == "" ==> r == old(radios.ledger.Entries())
      ensures params.ByUser? && SinglePair(params.userID) ==> r == old(radios.ledger.Entries())
    {
      LogUrlRoundTrip(baseUrl, params);
      r := radios.ledger.Get(LogQueryOf(LogUrl(baseUrl, params)));
    }

    /** `getUserById`: the user whose id the route reads back, or None when
        the route answers 404 or, for an empty id, with the whole list. */
    method GetUserById(userID: string) returns (r: Option<User>)
      requires PlainBase(baseUrl)
      modifies users`data
      ensures users.data == Some(old(users.Users()))
      ensures ReadBack(userID) != "" ==> r == Find(old(users.Users()), UserIdIs(ReadBack(userID)))
      ensures ReadBack(userID) == "" ==> r == None
    {
      UserUrlRoundTrip(baseUrl, userID);
      var answer := users.Get(SearchParam(UserUrl(baseUrl, userID), "userID"));
      r := if answer.One? then Some(answer.user) else None;
    }
  }
}
