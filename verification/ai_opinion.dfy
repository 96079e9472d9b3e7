/** The adapter around the language-model reply: it cuts the JSON object out
    of the raw reply text, reads three fields with defaults, and degrades to a
    fixed neutral opinion on any failure.

    The network call is represented by its outcome, `Option<string>`, where
    `None` stands for the call raising. The JSON parser is a parameter
    `parse: string -> Option<Parsed>`, where `None` stands for a parse error
    and a present field already carries the type the prompt asks for. */
module AiOpinion {
  import opened Wrappers

  // ---------------------------------------------------------------------------
  // Text scanning, with Python's string semantics
  // ---------------------------------------------------------------------------

  /** Python's `str.isspace` characters: the ones `str.strip()` removes. */
  predicate IsSpace(c: char)
  {
    || ('\U{0009}' <= c <= '\U{000D}')
    || ('\U{001C}' <= c <= '\U{0020}')
    || c == '\U{0085}' || c == '\U{00A0}' || c == '\U{1680}'
    || ('\U{2000}' <= c <= '\U{200A}')
    || c == '\U{2028}' || c == '\U{2029}' || c == '\U{202F}' || c == '\U{205F}' || c == '\U{3000}'
  }

  /** The first index at or after `i` that is not whitespace, or `|s|`. */
  function SkipSpace(s: string, i: nat): (k: nat)
    requires i <= |s|
    ensures i <= k <= |s|
    ensures forall m :: i <= m < k ==> IsSpace(s[m])
    ensures k < |s| ==> !IsSpace(s[k])
    decreases |s| - i
  {
    if i < |s| && IsSpace(s[i]) then SkipSpace(s, i + 1) else i
  }

  /** The least `k` in [lo, j] such that `s[k..j]` is all whitespace. */
  function SkipSpaceBack(s: string, lo: nat, j: nat): (k: nat)
    requires lo <= j <= |s|
    ensures lo <= k <= j
    ensures forall m :: k <= m < j ==> IsSpace(s[m])
    ensures k > lo ==> !IsSpace(s[k - 1])
    decreases j
  {
    if j > lo && IsSpace(s[j - 1]) then SkipSpaceBack(s, lo, j - 1) else j
  }

  /** Where the text `str.strip()` keeps begins. */
  function LeadingSpace(s: string): (a: nat)
    ensures a <= |s|
  {
    SkipSpace(s, 0)
  }

  /** Python's `str.strip()`: the stretch of `s` that starts after its leading
      whitespace. Only whitespace is cut, and none is left at either end. */
  function Strip(s: string): (r: string)
    ensures LeadingSpace(s) + |r| <= |s|
    ensures forall k :: 0 <= k < |r| ==> r[k] == s[LeadingSpace(s) + k]
    ensures forall k :: 0 <= k < LeadingSpace(s) ==> IsSpace(s[k])
    ensures forall k :: LeadingSpace(s) + |r| <= k < |s| ==> IsSpace(s[k])
    ensures |r| > 0 ==> !IsSpace(r[0]) && !IsSpace(r[|r| - 1])
  {
    var a := SkipSpace(s, 0);
    var b := SkipSpaceBack(s, a, |s|);
    s[a..b]
  }

  /** The first index at or after `i` holding `c`, or -1. */
  function FindFrom(s: string, c: char, i: nat): (k: int)
    requires i <= |s|
    ensures k == -1 || (i <= k < |s| && s[k] == c)
    ensures forall m :: i <= m < |s| && s[m] == c ==> i <= k <= m
    decreases |s| - i
  {
    if i == |s| then -1
    else if s[i] == c then i
    else FindFrom(s, c, i + 1)
  }

  /** The last index before `j` holding `c`, or -1. */
  function FindBefore(s: string, c: char, j: nat): (k: int)
    requires j <= |s|
    ensures k == -1 || (0 <= k < j && s[k] == c)
    ensures forall m :: 0 <= m < j && s[m] == c ==> m <= k
  {
    if j == 0 then -1
    else if s[j - 1] == c then j - 1
    else FindBefore(s, c, j - 1)
  }

  /** Python's `s.find(c)`: the first index of `c`, or -1 when there is none. */
  function Find(s: string, c: char): (i: int)
    ensures -1 <= i < |s|
    ensures i >= 0 ==> s[i] == c
    ensures forall k :: 0 <= k < |s| && s[k] == c ==> 0 <= i <= k
  {
    FindFrom(s, c, 0)
  }

  /** Python's `s.rfind(c)`: the last index of `c`, or -1 when there is none. */
  function RFind(s: string, c: char): (i: int)
    ensures -1 <= i < |s|
    ensures i >= 0 ==> s[i] == c
    ensures forall k :: 0 <= k < |s| && s[k] == c ==> k <= i
  {
    FindBefore(s, c, |s|)
  }

  /** Where a Python slice index lands in a sequence of length `n`: negative
      indices count from the end, and both ends are clipped to [0, n]. */
  function SliceIndex(i: int, n: nat): (k: nat)
    ensures k <= n
    ensures 0 <= i <= n ==> k == i
    ensures i < 0 && n + i >= 0 ==> k == n + i
  {
    if i < 0 then (if n + i < 0 then 0 else n + i)
    else if i > n then n
    else i
  }

  /** Python's `s[start:stop]`. */
  function Slice(s: string, start: int, stop: int): (r: string)
    ensures 0 <= start <= stop <= |s| ==> r == s[start..stop]
    ensures |r| <= |s|
  {
    var a := SliceIndex(start, |s|);
    var b := SliceIndex(stop, |s|);
    if a < b then s[a..b] else []
  }

  /** `raw[raw.find("{") : raw.rfind("}") + 1]`: the text handed to the JSON
      parser. When a `}` follows the first `{`, it is exactly the stretch from
      the first `{` to the last `}`, both included; otherwise it is empty, or,
      when `raw` has no `{` at all and ends in `}`, that lone `}`. */
  function JsonText(raw: string): (r: string)
    ensures 0 <= Find(raw, '{') <= RFind(raw, '}') ==>
              r == raw[Find(raw, '{')..RFind(raw, '}') + 1]
    ensures !(0 <= Find(raw, '{') <= RFind(raw, '}')) ==>
              |r| <= 1 && (|r| == 1 ==> r[0] == '}')
  {
    Slice(raw, Find(raw, '{'), RFind(raw, '}') + 1)
  }

  /** A character that is not whitespace survives `strip`, shifted by the
      leading whitespace. */
  lemma StripKeeps(raw: string, p: int)
    requires 0 <= p < |raw| && !IsSpace(raw[p])
    ensures LeadingSpace(raw) <= p < LeadingSpace(raw) + |Strip(raw)|
    ensures Strip(raw)[p - LeadingSpace(raw)] == raw[p]
  {
  }

  lemma JsonTextSpan(s: string, i: int, j: int)
    requires i == Find(s, '{') && j == RFind(s, '}') && 0 <= i <= j
    ensures JsonText(s) == s[i..j + 1]
  {
  }

  /** A stretch of a window is the same stretch of the whole, shifted. */
  lemma WindowSlice(s: string, a: nat, w: string, i: int, j: int)
    requires a + |w| <= |s| && forall k :: 0 <= k < |w| ==> w[k] == s[a + k]
    requires a <= i <= j < a + |w|
    ensures w[i - a..j - a + 1] == s[i..j + 1]
  {
    assert forall k :: i - a <= k <= j - a ==> w[i - a..j - a + 1][k - (i - a)] == w[k];
  }

  /** The first occurrence inside a window of `s` that contains the first
      occurrence in `s` is that same occurrence, shifted. */
  lemma FindInWindow(s: string, c: char, a: nat, w: string)
    requires a + |w| <= |s| && forall k :: 0 <= k < |w| ==> w[k] == s[a + k]
    requires a <= Find(s, c) < a + |w|
    ensures Find(w, c) == Find(s, c) - a
  {
    var i := Find(s, c);
    assert w[i - a] == c;
    var i' := Find(w, c);
    assert s[a + i'] == w[i'];
  }

  /** The last occurrence inside a window of `s` that contains the last
      occurrence in `s` is that same occurrence, shifted. */
  lemma RFindInWindow(s: string, c: char, a: nat, w: string)
    requires a + |w| <= |s| && forall k :: 0 <= k < |w| ==> w[k] == s[a + k]
    requires a <= RFind(s, c) < a + |w|
    ensures RFind(w, c) == RFind(s, c) - a
  {
    var j := RFind(s, c);
    assert w[j - a] == c;
    var j' := RFind(w, c);
    assert s[a + j'] == w[j'];
  }

  /** A window of `s` that holds the first `{` and the last `}` of `s`
      yields the same JSON text as `s`. */
  lemma JsonTextInWindow(s: string, a: nat, w: string)
    requires a + |w| <= |s| && forall k :: 0 <= k < |w| ==> w[k] == s[a + k]
    requires a <= Find(s, '{') <= RFind(s, '}') < a + |w|
    ensures JsonText(w) == JsonText(s)
  {
    var i := Find(s, '{');
    var j := RFind(s, '}');
    assert Find(w, '{') == i - a by { FindInWindow(s, '{', a, w); }
    assert RFind(w, '}') == j - a by { RFindInWindow(s, '}', a, w); }
    assert JsonText(w) == w[i - a..j - a + 1] by { JsonTextSpan(w, i - a, j - a); }
    assert JsonText(s) == s[i..j + 1] by { JsonTextSpan(s, i, j); }
    WindowSlice(s, a, w, i, j);
  }

  /** Stripping the reply first never changes the text handed to the parser
      when a `}` follows the first `{`: braces are not whitespace, so the
      braced stretch lies inside what `strip` keeps. */
  lemma StripKeepsJsonText(raw: string)
    requires 0 <= Find(raw, '{') <= RFind(raw, '}')
    ensures JsonText(Strip(raw)) == JsonText(raw)
  {
    StripKeeps(raw, Find(raw, '{'));
    StripKeeps(raw, RFind(raw, '}'));
    JsonTextInWindow(raw, LeadingSpace(raw), Strip(raw));
  }

  // ---------------------------------------------------------------------------
  // Parsed reply and opinion
  // ---------------------------------------------------------------------------

  /** The three fields the prompt asks for, each present or missing. */
  datatype Parsed = Parsed(probability: Option<int>, reason: Option<string>, keyFactors: Option<seq<string>>)

  /** The model's opinion of the application. */
  datatype Opinion = Opinion(probability: int, reason: string, keyFactors: seq<string>)

  /** The neutral opinion used whenever the reply cannot be obtained or read. */
  const Fallback: Opinion := Opinion(50, "AI parsing failed", [])

  const DefaultProbability: int := 50
  const DefaultReason: string := ""
  const DefaultKeyFactors: seq<string> := []

  /** The text the parser receives for a reply. */
  function ReplyJson(reply: string): string
  {
    JsonText(Strip(reply))
  }

  /** A reply read into an opinion. A failed call or a parse error gives
      exactly the fallback; after a successful parse each missing field takes
      its own default, independently of the others. */
  function GetOpinion(reply: Option<string>, parse: string -> Option<Parsed>): (o: Opinion)
    ensures reply.None? ==> o == Fallback
    ensures reply.Some? && parse(ReplyJson(reply.value)).None? ==> o == Fallback
    ensures reply.Some? && parse(ReplyJson(reply.value)).Some? ==>
              var p := parse(ReplyJson(reply.value)).value;
              && (p.probability.None? ==> o.probability == DefaultProbability)
              && (p.probability.Some? ==> o.probability == p.probability.value)
              && (p.reason.None? ==> o.reason == DefaultReason)
              && (p.reason.Some? ==> o.reason == p.reason.value)
              && (p.keyFactors.None? ==> o.keyFactors == DefaultKeyFactors)
              && (p.keyFactors.Some? ==> o.keyFactors == p.keyFactors.value)
  {
    match reply
    case None => Fallback
    case Some(raw) =>
      match parse(ReplyJson(raw))
      case None => Fallback
      case Some(p) =>
        Opinion(p.probability.GetOr(DefaultProbability),
                p.reason.GetOr(DefaultReason),
                p.keyFactors.GetOr(DefaultKeyFactors))
  }

  /** A JSON parser rejects the empty text and a lone `}`. */
  predicate RejectsBareText(parse: string -> Option<Parsed>)
  {
    parse([]).None? && parse("}").None?
  }

  /** Stripping never introduces a character. */
  lemma StripKeepsOut(s: string, c: char)
    requires c !in s
    ensures c !in Strip(s)
  {
    var t := Strip(s);
    assert forall k :: 0 <= k < |t| ==> t[k] == s[LeadingSpace(s) + k];
  }

  /** Whenever no `}` follows the first `{`, the parser gets the empty text or a lone `}`. */
  lemma BareJsonText(raw: string)
    requires !(0 <= Find(raw, '{') <= RFind(raw, '}'))
    ensures JsonText(raw) == [] || JsonText(raw) == "}"
  {
    var x := JsonText(raw);
    assert |x| == 1 ==> x == [x[0]];
  }

  /** A reply without any `{` falls back, whatever else it contains. */
  lemma BracelessReplyFallsBack(raw: string, parse: string -> Option<Parsed>)
    requires RejectsBareText(parse)
    requires '{' !in raw
    ensures GetOpinion(Some(raw), parse) == Fallback
  {
    StripKeepsOut(raw, '{');
    BareJsonText(Strip(raw));
  }

  /** A reply that has a `{` but no `}` after its first `{` falls back. */
  lemma UnclosedReplyFallsBack(raw: string, parse: string -> Option<Parsed>)
    requires RejectsBareText(parse)
    requires 0 <= Find(raw, '{') && RFind(raw, '}') < Find(raw, '{')
    ensures GetOpinion(Some(raw), parse) == Fallback
  {
    var t := Strip(raw);
    var a := LeadingSpace(raw);
    StripKeeps(raw, Find(raw, '{'));
    assert forall k :: 0 <= k < |t| ==> t[k] == raw[a + k];
    UnclosedInWindow(raw, a, t);
    BareJsonText(t);
  }

  /** A window holding the first `{` of `s`, when no `}` follows it in `s`,
      has no `}` after its own first `{` either. */
  lemma UnclosedInWindow(s: string, a: nat, w: string)
    requires a + |w| <= |s| && forall k :: 0 <= k < |w| ==> w[k] == s[a + k]
    requires a <= Find(s, '{') < a + |w|
    requires RFind(s, '}') < Find(s, '{')
    ensures RFind(w, '}') < Find(w, '{')
  {
    FindInWindow(s, '{', a, w);
    var j := RFind(w, '}');
    assert j >= 0 ==> s[a + j] == '}';
  }
}
