/** The scanner: source text to a token list ending in one end marker.
    Rules are tried in a fixed priority order at each position: skip
    whitespace, two-character operators, one-character punctuators,
    identifiers, numbers as `parseInt` reads them; anything else is
    fatal. */
module Tokenizer {
  import opened Wrappers
  import opened Decimal

  /** A token; `pos` is the character offset where the token's text
      starts. The end marker has no text and reports position -1. */
  datatype Token =
    | Eof
    | Reserved(str: string, pos: nat)
    | Ident(str: string, pos: nat)
    | Num(str: string, val: nat, pos: nat)
  {
    function Pos(): int {
      if Eof? then -1 else pos
    }
  }

  const TwoCharOps: seq<string> := ["==", "!=", ">=", "<="]
  const OneCharOps: seq<string> := ["+", "-", "*", "/", "(", ")", ">", "<", "=", ";"]

  /** The characters `String.prototype.trim` removes: the ECMAScript
      white-space and line-terminator characters. */
  predicate IsSpace(c: char) {
    || c == ' ' || c == '\t' || c == '\n' || c == '\r'
    || c == '\U{B}' || c == '\U{C}' || c == '\U{A0}' || c == '\U{1680}'
    || ('\U{2000}' <= c <= '\U{200A}')
    || c == '\U{2028}' || c == '\U{2029}' || c == '\U{202F}' || c == '\U{205F}'
    || c == '\U{3000}' || c == '\U{FEFF}'
  }

  /** `[a-z_]` */
  predicate IsIdentStart(c: char) {
    ('a' <= c <= 'z') || c == '_'
  }

  /** `\w`, that is `[A-Za-z0-9_]` */
  predicate IsWordChar(c: char) {
    ('a' <= c <= 'z') || ('A' <= c <= 'Z') || IsDigit(c) || c == '_'
  }

  predicate AllWord(s: string) {
    forall i | 0 <= i < |s| :: IsWordChar(s[i])
  }

  /** What a token may look like, whatever the source it came from. */
  predicate WellFormed(t: Token) {
    match t
    case Eof => false
    case Reserved(s, _) => s in TwoCharOps || s in OneCharOps
    case Ident(s, _) => |s| >= 1 && IsIdentStart(s[0]) && AllWord(s)
    case Num(s, v, _) => s == NatToString(v)
  }

  /** Exactly one end marker, and it is last. */
  predicate EndsWithEof(ts: seq<Token>) {
    |ts| >= 1 && ts[|ts| - 1] == Eof && forall i | 0 <= i < |ts| - 1 :: !ts[i].Eof?
  }

  /** Positions strictly increase along the list, end marker excluded. */
  predicate Increasing(ts: seq<Token>) {
    forall i | 0 <= i < |ts| - 2 :: ts[i].Pos() < ts[i + 1].Pos()
  }

  /** Length of the longest prefix of `s` made of word characters: the
      identifier loop, stopping at the end of the input. */
  function WordRunLength(s: string): (n: nat)
    ensures n <= |s| && AllWord(s[..n])
    ensures n < |s| ==> !IsWordChar(s[n])
  {
    if |s| > 0 && IsWordChar(s[0]) then
      var n := 1 + WordRunLength(s[1..]);
      assert s[..n] == [s[0]] + s[1..][..n - 1];
      n
    else 0
  }

  /** Length of the longest prefix of `s` made of decimal digits: the part
      `parseInt` reads. */
  function DigitRunLength(s: string): (n: nat)
    ensures n <= |s| && AllDigits(s[..n])
    ensures n < |s| ==> !IsDigit(s[n])
  {
    if |s| > 0 && IsDigit(s[0]) then
      var n := 1 + DigitRunLength(s[1..]);
      assert s[..n] == [s[0]] + s[1..][..n - 1];
      n
    else 0
  }

  predicate OccursAt(s: string, pat: string, j: nat) {
    j + |pat| <= |s| && s[j..j + |pat|] == pat
  }

  /** The first index at or after `i` where `pat` occurs in `s`. */
  function FindFrom(s: string, pat: string, i: nat): (r: Option<nat>)
    ensures r.Some? ==> i <= r.value && OccursAt(s, pat, r.value)
    ensures r.Some? ==> forall k | i <= k < r.value :: !OccursAt(s, pat, k)
    ensures r.None? ==> forall k | i <= k :: !OccursAt(s, pat, k)
    decreases |s| - i
  {
    if i + |pat| > |s| then None
    else if s[i..i + |pat|] == pat then Some(i)
    else FindFrom(s, pat, i + 1)
  }

  /** `s.replace(pat, '')` for a string pattern: removes the first
      occurrence only, and leaves `s` alone when there is none. */
  function ReplaceFirst(s: string, pat: string): (r: string)
    ensures |r| <= |s| && (|pat| > 0 ==> (|r| == |s| <==> FindFrom(s, pat, 0).None?))
    ensures |r| == |s| ==> r == s
    ensures forall c | c in r :: c in s
  {
    match FindFrom(s, pat, 0)
    case Some(j) =>
      assert forall c | c in s[..j] + s[j + |pat|..] :: c in s by {
        forall c | c in s[..j] + s[j + |pat|..] ensures c in s {
          var i :| 0 <= i < |s[..j] + s[j + |pat|..]| && (s[..j] + s[j + |pat|..])[i] == c;
          if i < j { assert s[i] == c; } else { assert s[i + |pat|] == c; }
        }
      }
      s[..j] + s[j + |pat|..]
    case None => s
  }

  /** `[0-9A-Fa-f]` */
  predicate IsHexDigit(c: char) {
    IsDigit(c) || ('a' <= c <= 'f') || ('A' <= c <= 'F')
  }

  predicate AllHex(s: string) {
    forall i | 0 <= i < |s| :: IsHexDigit(s[i])
  }

  function HexDigitValue(c: char): (d: nat)
    requires IsHexDigit(c)
    ensures d < 16
  {
    if IsDigit(c) then DigitValue(c)
    else if 'a' <= c <= 'f' then c as int - 'a' as int + 10
    else c as int - 'A' as int + 10
  }

  /** The value of a hexadecimal digit string, most significant first. */
  function HexValue(s: string): nat
    requires AllHex(s)
  {
    if |s| == 0 then 0 else 16 * HexValue(s[..|s| - 1]) + HexDigitValue(s[|s| - 1])
  }

  /** Length of the longest prefix of `s` made of hexadecimal digits. */
  function HexRunLength(s: string): (n: nat)
    ensures n <= |s| && AllHex(s[..n])
    ensures n < |s| ==> !IsHexDigit(s[n])
  {
    if |s| > 0 && IsHexDigit(s[0]) then
      var n := 1 + HexRunLength(s[1..]);
      assert s[..n] == [s[0]] + s[1..][..n - 1];
      n
    else 0
  }

  /** Text `parseInt` reads in base 16: `0x` or `0X` first. */
  predicate HexPrefixed(s: string) {
    |s| >= 2 && s[0] == '0' && (s[1] == 'x' || s[1] == 'X')
  }

  /** Text `parseInt` reads in base 10 from a leading digit. */
  predicate DecimalStart(s: string) {
    |s| > 0 && IsDigit(s[0]) && !HexPrefixed(s)
  }

  /** `parseInt(cur)` with no radix, `None` standing for `NaN`. The rules
      tried before it leave no white space and no sign at the front, so
      the text must start with a digit. After a `0x` or `0X` prefix it
      reads hexadecimal digits, and with none there the result is `NaN`;
      otherwise it reads the leading decimal digits. */
  function ParseInt(cur: string): (r: Option<nat>)
    ensures r.Some? ==> |cur| > 0 && IsDigit(cur[0])
    ensures r.None? && |cur| > 0 && IsDigit(cur[0]) ==> HexPrefixed(cur) && HexRunLength(cur[2..]) == 0
  {
    if |cur| == 0 || !IsDigit(cur[0]) then None
    else if HexPrefixed(cur) then
      var n := HexRunLength(cur[2..]);
      if n == 0 then None else Some(HexValue(cur[2..][..n]))
    else Some(DecimalValue(cur[..DigitRunLength(cur)]))
  }

  /** A decimal literal's rendering occurs inside its own digit run, at
      the front when the run has no leading zeros. */
  lemma DecimalFound(cur: string)
    requires DecimalStart(cur)
    ensures var n := DigitRunLength(cur);
      var pat := NatToString(DecimalValue(cur[..n]));
      && FindFrom(cur, pat, 0).Some? && FindFrom(cur, pat, 0).value + |pat| <= n
      && (Canonical(cur[..n]) ==> pat == cur[..n] && FindFrom(cur, pat, 0).value == 0)
      && (Canonical(cur[..n]) ==> ReplaceFirst(cur, pat) == cur[n..])
  {
    var n := DigitRunLength(cur);
    var run := cur[..n];
    var pat := NatToString(DecimalValue(run));
    RenderStripped(run);
    assert OccursAt(cur, pat, n - |pat|) by {
      assert cur[n - |pat|..n] == run[n - |pat|..];
    }
    if Canonical(run) {
      StringOfValue(run);
    }
  }

  /** `strtol`: the value `parseInt` reads, and the text left once that
      value's decimal rendering is removed. On `NaN` it returns `0` and
      the text unchanged. */
  function Strtol(cur: string): (r: (nat, string))
    ensures ParseInt(cur).None? ==> r == (0, cur)
    ensures ParseInt(cur).Some? ==> r.0 == ParseInt(cur).value
    ensures |r.1| <= |cur| && (|r.1| == |cur| ==> r.1 == cur)
    ensures forall c | c in r.1 :: c in cur
    ensures DecimalStart(cur) ==> |r.1| < |cur|
    ensures DecimalStart(cur) && Canonical(cur[..DigitRunLength(cur)]) ==>
              r.1 == cur[DigitRunLength(cur)..] && NatToString(r.0) == cur[..DigitRunLength(cur)]
  {
    match ParseInt(cur)
    case None => (0, cur)
    case Some(v) =>
      if DecimalStart(cur) then
        DecimalFound(cur);
        (v, ReplaceFirst(cur, NatToString(v)))
      else (v, ReplaceFirst(cur, NatToString(v)))
  }

  /** What a successful scan from offset `from` guarantees: one end
      marker, last; well-formed tokens at positions in `[from, |src|)`,
      strictly increasing. */
  predicate ScannedFrom(src: string, from: int, ts: seq<Token>) {
    && EndsWithEof(ts)
    && Increasing(ts)
    && forall i | 0 <= i < |ts| - 1 :: WellFormed(ts[i]) && from <= ts[i].Pos() < |src|
  }

  lemma ScannedCons(src: string, from: int, next: int, t: Token, ts: seq<Token>)
    requires ScannedFrom(src, next, ts)
    requires WellFormed(t) && from <= t.Pos() < next <= |src|
    ensures ScannedFrom(src, from, [t] + ts)
  {
    var r := [t] + ts;
    forall i | 0 <= i < |r| - 1
      ensures WellFormed(r[i]) && from <= r[i].Pos() < |src|
    {
      if i > 0 {
        assert r[i] == ts[i - 1];
      }
    }
    forall i | 0 <= i < |r| - 2
      ensures r[i].Pos() < r[i + 1].Pos()
    {
      if i > 0 {
        assert r[i] == ts[i - 1] && r[i + 1] == ts[i];
      }
    }
  }

  /** The scanner loop; `cur` is the unread text and the current position
      is `|src| - |cur|`. */
  function Scan(src: string, cur: string): (r: Result<seq<Token>>)
    requires |cur| <= |src|
    ensures r.Success? ==> ScannedFrom(src, |src| - |cur|, r.value)
    ensures r.Failure? && !r.error.Diverges? ==> r.error.ErrorAt? && r.error.msg == "failed to tokenize"
    ensures r.Failure? && !r.error.Diverges? ==> |src| - |cur| <= r.error.pos < |src|
    decreases |cur|, 1
  {
    if |cur| == 0 then Success([Eof])
    else
      var pos := |src| - |cur|;
      if IsSpace(cur[0]) then Scan(src, cur[1..])
      else if |cur| >= 2 && cur[..2] in TwoCharOps then
        var rest :- Scan(src, cur[2..]);
        ScannedCons(src, pos, pos + 2, Reserved(cur[..2], pos), rest);
        Success([Reserved(cur[..2], pos)] + rest)
      else if cur[..1] in OneCharOps then
        var rest :- Scan(src, cur[1..]);
        ScannedCons(src, pos, pos + 1, Reserved(cur[..1], pos), rest);
        Success([Reserved(cur[..1], pos)] + rest)
      else if IsIdentStart(cur[0]) then
        var n := WordRunLength(cur);
        var rest :- Scan(src, cur[n..]);
        ScannedCons(src, pos, pos + n, Ident(cur[..n], pos), rest);
        Success([Ident(cur[..n], pos)] + rest)
      else if ParseInt(cur).Some? then ScanNumber(src, cur)
      else Failure(ErrorAt(pos, "failed to tokenize"))
  }

  /** The number rule: a token for the value `strtol` reads, then the
      scan of the text it leaves. */
  function ScanNumber(src: string, cur: string): (r: Result<seq<Token>>)
    requires |cur| <= |src| && ParseInt(cur).Some?
    ensures r.Success? ==> ScannedFrom(src, |src| - |cur|, r.value)
    ensures r.Failure? && !r.error.Diverges? ==> r.error.ErrorAt? && r.error.msg == "failed to tokenize"
    ensures r.Failure? && !r.error.Diverges? ==> |src| - |cur| <= r.error.pos < |src|
    ensures |Strtol(cur).1| == |cur| ==> r == Failure(Diverges)
    decreases |cur|, 0
  {
    var pos := |src| - |cur|;
    var val, after := Strtol(cur).0, Strtol(cur).1;
    // `replace` found nothing: `cur` is unchanged, and the loop repeats
    // this step forever.
    if |after| == |cur| then Failure(Diverges)
    else
      var rest :- Scan(src, after);
      ScannedCons(src, pos, |src| - |after|, Num(NatToString(val), val, pos), rest);
      Success([Num(NatToString(val), val, pos)] + rest)
  }

  /** `tokenize`: scans the whole source. */
  function Tokenize(src: string): (r: Result<seq<Token>>)
    ensures r.Success? ==> EndsWithEof(r.value) && Increasing(r.value)
    ensures r.Success? ==> forall i | 0 <= i < |r.value| - 1 ::
              WellFormed(r.value[i]) && 0 <= r.value[i].Pos() < |src|
    ensures r.Failure? && !r.error.Diverges? ==> r.error.ErrorAt? && r.error.msg == "failed to tokenize"
    ensures r.Failure? && !r.error.Diverges? ==> 0 <= r.error.pos < |src|
  {
    Scan(src, src)
  }

  // The identifier loop exactly as the source writes it: its guard tests
  // `/\w/` against `cur[0]`, which is `undefined` once the text is used up,
  // and the regular-expression test stringifies that to "undefined".

  /** The string the guard's regular expression is run on. */
  function GuardArgAsWritten(cur: string): string {
    if |cur| == 0 then "undefined" else cur[..1]
  }

  /** `/\w/.test(...)`: true when any character of the argument is a word
      character. */
  predicate WordTest(s: string) {
    exists i | 0 <= i < |s| :: IsWordChar(s[i])
  }

  predicate IdentGuardAsWritten(cur: string) {
    WordTest(GuardArgAsWritten(cur))
  }

  /** One iteration of the loop body: `str += cur.slice(0, 1); cur = cur.slice(1)`. */
  function IdentStepAsWritten(str: string, cur: string): (string, string) {
    if |cur| == 0 then (str, cur) else (str + cur[..1], cur[1..])
  }
}
