/** Properties of the scanner: what it produces for blank input, when it
    fails, and how its tokens sit in the source text. */
module TokenizerProps {
  import opened Wrappers
  import opened Decimal
  import opened Tokenizer

  predicate AllSpace(s: string) {
    forall i | 0 <= i < |s| :: IsSpace(s[i])
  }

  /** Characters some rule can start with on their own. */
  predicate InAlphabet(c: char) {
    IsSpace(c) || IsIdentStart(c) || IsDigit(c) || [c] in OneCharOps
  }

  /** Blank input, and only blank input, scans to the end marker alone. */
  lemma {:induction false} ScanBlank(src: string, cur: string)
    requires |cur| <= |src|
    ensures Scan(src, cur) == Success([Eof]) <==> AllSpace(cur)
    decreases |cur|
  {
    if |cur| > 0 {
      if IsSpace(cur[0]) {
        ScanBlank(src, cur[1..]);
        assert AllSpace(cur) <==> AllSpace(cur[1..]) by {
          assert forall i | 0 <= i < |cur| - 1 :: cur[1..][i] == cur[i + 1];
        }
      }
    }
  }

  lemma TokenizeBlank(src: string)
    ensures Tokenize(src) == Success([Eof]) <==> AllSpace(src)
  {
    ScanBlank(src, src);
  }

  /** The unread text is the matching tail of the source, except that a
      number with leading zeros can leave zeros behind that `strtol`'s
      `replace` did not remove; each such zero stands where the source
      has a digit. */
  predicate Aligned(src: string, cur: string) {
    && |cur| <= |src|
    && forall j | 0 <= j < |cur| ::
         var c := src[|src| - |cur| + j];
         cur[j] == c || (cur[j] == '0' && IsDigit(c))
  }

  /** Somewhere in `src` a digit is followed by `x` or `X`. Only then can
      the scanner meet text that `parseInt` reads in base 16. */
  predicate DigitBeforeX(src: string) {
    exists i | 0 <= i < |src| - 1 :: IsDigit(src[i]) && (src[i + 1] == 'x' || src[i + 1] == 'X')
  }

  /** `strtol` on a decimal literal removes one block of its digit run
      that only zeros precede. */
  lemma StrtolRemoval(cur: string) returns (j: nat)
    requires DecimalStart(cur)
    ensures var rest := Strtol(cur).1;
      && j <= |rest| < |cur|
      && j + |cur| - |rest| <= DigitRunLength(cur)
      && rest == cur[..j] + cur[j + |cur| - |rest|..]
      && forall i | 0 <= i < j :: cur[i] == '0'
  {
    var n := DigitRunLength(cur);
    var pat := NatToString(DecimalValue(cur[..n]));
    StrtolDecimal(cur);
    DecimalFound(cur);
    j := FindFrom(cur, pat, 0).value;
    ReplaceAt(cur, pat, j);
    var rest := Strtol(cur).1;
    assert |cur| - |rest| == |pat|;
    ZerosFirst(cur, j);
  }

  /** Only zeros precede the first occurrence of a decimal literal's
      rendering. */
  lemma ZerosFirst(cur: string, j: nat)
    requires DecimalStart(cur)
    requires FindFrom(cur, NatToString(DecimalValue(cur[..DigitRunLength(cur)])), 0) == Some(j)
    ensures forall i | 0 <= i < j :: cur[i] == '0'
  {
    var n := DigitRunLength(cur);
    var run := cur[..n];
    DecimalFound(cur);
    RenderStripped(run);
    forall i | 0 <= i < j
      ensures cur[i] == '0'
    {
      assert cur[i] == run[i];
    }
  }

  /** Removing an occurrence found at `j`. */
  lemma ReplaceAt(s: string, pat: string, j: nat)
    requires FindFrom(s, pat, 0) == Some(j)
    ensures ReplaceFirst(s, pat) == s[..j] + s[j + |pat|..]
    ensures |ReplaceFirst(s, pat)| == |s| - |pat|
  {
  }

  lemma StrtolDecimal(cur: string)
    requires DecimalStart(cur)
    ensures var v := DecimalValue(cur[..DigitRunLength(cur)]);
      Strtol(cur) == (v, ReplaceFirst(cur, NatToString(v)))
  {
    assert ParseInt(cur) == Some(DecimalValue(cur[..DigitRunLength(cur)]));
  }

  lemma AlignedAfterStrtol(src: string, cur: string)
    requires Aligned(src, cur) && DecimalStart(cur)
    ensures Aligned(src, Strtol(cur).1)
  {
    var rest := Strtol(cur).1;
    var j := StrtolRemoval(cur);
    var m := |cur| - |rest|;
    var n := DigitRunLength(cur);
    var k := |src| - |cur|;
    forall i | 0 <= i < |rest|
      ensures var c := src[|src| - |rest| + i]; rest[i] == c || (rest[i] == '0' && IsDigit(c))
    {
      assert |src| - |rest| + i == k + (i + m);
      if i >= j {
        assert rest[i] == cur[i + m];
      } else {
        assert rest[i] == cur[i] == '0';
        assert cur[..n][i + m] == cur[i + m];
      }
    }
  }

  lemma AlignedTail(src: string, cur: string, m: nat)
    requires Aligned(src, cur) && m <= |cur|
    ensures Aligned(src, cur[m..])
  {
    forall i | 0 <= i < |cur| - m
      ensures var c := src[|src| - |cur[m..]| + i]; cur[m..][i] == c || (cur[m..][i] == '0' && IsDigit(c))
    {
      assert cur[m..][i] == cur[m + i];
    }
  }

  /** Text the scanner reads in base 16 lies over a digit followed by
      `x` or `X` in the source. */
  lemma HexInSource(src: string, cur: string)
    requires Aligned(src, cur) && HexPrefixed(cur)
    ensures DigitBeforeX(src)
  {
    var k := |src| - |cur|;
    assert IsDigit(src[k]) && (src[k + 1] == 'x' || src[k + 1] == 'X');
  }

  /** A scan fails only at a character no rule can start with, unless a
      digit is followed by `x` or `X` somewhere in the source. */
  lemma {:induction false} ScanFailsOnlyOutsideAlphabet(src: string, cur: string)
    requires Aligned(src, cur)
    ensures Scan(src, cur).Failure? && !DigitBeforeX(src) ==>
              && Scan(src, cur).error.ErrorAt?
              && var p := Scan(src, cur).error.pos;
                 0 <= p < |src| && !InAlphabet(src[p])
    decreases |cur|
  {
    if |cur| > 0 {
      var pos := |src| - |cur|;
      if HexPrefixed(cur) {
        HexInSource(src, cur);
      } else if IsSpace(cur[0]) {
        AlignedTail(src, cur, 1);
        ScanFailsOnlyOutsideAlphabet(src, cur[1..]);
      } else if |cur| >= 2 && cur[..2] in TwoCharOps {
        AlignedTail(src, cur, 2);
        ScanFailsOnlyOutsideAlphabet(src, cur[2..]);
      } else if cur[..1] in OneCharOps {
        AlignedTail(src, cur, 1);
        ScanFailsOnlyOutsideAlphabet(src, cur[1..]);
      } else if IsIdentStart(cur[0]) {
        var n := WordRunLength(cur);
        AlignedTail(src, cur, n);
        ScanFailsOnlyOutsideAlphabet(src, cur[n..]);
      } else if IsDigit(cur[0]) {
        AlignedAfterStrtol(src, cur);
        ScanFailsOnlyOutsideAlphabet(src, Strtol(cur).1);
      } else {
        assert cur[0] == src[pos];
        assert [cur[0]] == cur[..1];
      }
    }
  }

  /** Over the characters some rule can start with, and with no digit
      followed by `x` or `X` in the source, the scan never fails. */
  lemma {:induction false} ScanTotalOnAlphabet(src: string, cur: string)
    requires Aligned(src, cur) && !DigitBeforeX(src)
    requires forall i | 0 <= i < |cur| :: InAlphabet(cur[i])
    ensures Scan(src, cur).Success?
    decreases |cur|
  {
    if |cur| > 0 {
      assert [cur[0]] == cur[..1];
      if HexPrefixed(cur) {
        HexInSource(src, cur);
      } else if IsSpace(cur[0]) {
        AlignedTail(src, cur, 1);
        ScanTotalOnAlphabet(src, cur[1..]);
      } else if |cur| >= 2 && cur[..2] in TwoCharOps {
        AlignedTail(src, cur, 2);
        ScanTotalOnAlphabet(src, cur[2..]);
      } else if cur[..1] in OneCharOps {
        AlignedTail(src, cur, 1);
        ScanTotalOnAlphabet(src, cur[1..]);
      } else if IsIdentStart(cur[0]) {
        var n := WordRunLength(cur);
        AlignedTail(src, cur, n);
        ScanTotalOnAlphabet(src, cur[n..]);
      } else if IsDigit(cur[0]) {
        var rest := Strtol(cur).1;
        forall i | 0 <= i < |rest|
          ensures InAlphabet(rest[i])
        {
          assert rest[i] in cur;
        }
        AlignedAfterStrtol(src, cur);
        ScanTotalOnAlphabet(src, rest);
      }
    }
  }

  /** `tokenize` fails only at a character outside the alphabet, and
      source made of alphabet characters tokenizes, as long as no digit
      is followed by `x` or `X`. */
  lemma TokenizeFailure(src: string)
    ensures Tokenize(src).Failure? && !DigitBeforeX(src) ==>
              && Tokenize(src).error.ErrorAt?
              && var p := Tokenize(src).error.pos;
                 0 <= p < |src| && !InAlphabet(src[p])
    ensures (forall i | 0 <= i < |src| :: InAlphabet(src[i])) && !DigitBeforeX(src) ==>
              Tokenize(src).Success?
  {
    ScanFailsOnlyOutsideAlphabet(src, src);
    if (forall i | 0 <= i < |src| :: InAlphabet(src[i])) && !DigitBeforeX(src) {
      ScanTotalOnAlphabet(src, src);
    }
  }

  /** A `0x` or `0X` prefix with no hexadecimal digit after it is `NaN`
      to `parseInt`, so the scan fails at the prefix. */
  lemma HexWithoutDigitsFails(src: string, cur: string)
    requires |cur| <= |src| && HexPrefixed(cur) && HexRunLength(cur[2..]) == 0
    ensures Scan(src, cur) == Failure(ErrorAt(|src| - |cur|, "failed to tokenize"))
  {
    assert cur[..1] == ['0'] && cur[..2] == ['0', cur[1]];
  }

  /** A base-16 literal whose value's decimal rendering does not occur
      in the unread text: `replace` removes nothing, so the tokenizer
      never returns. */
  lemma HexNotFoundDiverges(src: string, cur: string)
    requires |cur| <= |src| && HexPrefixed(cur) && ParseInt(cur).Some?
    requires FindFrom(cur, NatToString(ParseInt(cur).value), 0).None?
    ensures Scan(src, cur) == Failure(Diverges)
  {
    assert cur[..1] == ['0'] && cur[..2] == ['0', cur[1]];
    assert Strtol(cur).1 == cur;
  }

  /** Why the exception is needed: `0x;` is made of alphabet characters,
      but `parseInt` reads `0x` as a base-16 prefix with no digits after
      it, so tokenizing fails at offset 0. */
  lemma HexWithoutDigits()
    ensures Tokenize("0x;") == Failure(ErrorAt(0, "failed to tokenize"))
  {
    assert "0x;"[2..] == ";";
    assert HexRunLength(";") == 0;
    HexWithoutDigitsFails("0x;", "0x;");
  }

  /** `0x1F;` reads as 31, whose rendering `31` does not occur in the
      text, so `replace` removes nothing and the tokenizer never returns. */
  lemma HexNeverEnds()
    ensures Tokenize("0x1F;") == Failure(Diverges)
  {
    HexValueExample();
    NoThirtyOne();
    HexNotFoundDiverges("0x1F;", "0x1F;");
  }

  lemma HexValueExample()
    ensures ParseInt("0x1F;") == Some(31)
  {
    var cur := "0x1F;";
    assert cur[2..] == "1F;";
    assert HexRunLength("1F;") == 2 by {
      assert "1F;"[1..] == "F;" && "F;"[1..] == ";";
    }
    assert cur[2..][..2] == "1F";
    assert HexValue("1F") == 31 by {
      assert "1F"[..1] == "1" && "1"[..0] == "";
    }
  }

  lemma NoThirtyOne()
    ensures NatToString(31) == "31"
    ensures FindFrom("0x1F;", "31", 0) == None
  {
    assert NatToString(3) == "3";
    var cur := "0x1F;";
    assert FindFrom(cur, "31", 4) == None;
    assert cur[3..5][0] == 'F';
    assert FindFrom(cur, "31", 3) == None;
    assert cur[2..4][1] == 'F';
    assert FindFrom(cur, "31", 2) == None;
    assert cur[1..3][0] == 'x';
    assert FindFrom(cur, "31", 1) == None;
    assert cur[0..2][0] == '0';
  }

  /** No number literal in `src` starts with a redundant zero or with a
      `0x` prefix: a `0` followed by a digit, `x` or `X` is always inside
      an identifier or a longer number. */
  predicate PlainLiterals(src: string) {
    forall i | 0 <= i < |src| - 1 :: PlainLiteralAt(src, i)
  }

  predicate PlainLiteralAt(src: string, i: nat)
    requires i < |src| - 1
  {
    src[i] == '0' && (IsDigit(src[i + 1]) || src[i + 1] == 'x' || src[i + 1] == 'X') ==>
      i > 0 && IsWordChar(src[i - 1])
  }

  /** At offset `k` a number can only start where no word character
      precedes it. */
  predicate AtBoundary(src: string, k: int) {
    k <= 0 || k >= |src| || !IsWordChar(src[k - 1]) || !IsDigit(src[k])
  }

  /** How a token relates to the text at its position. */
  predicate Faithful(src: string, t: Token) {
    match t
    case Eof => true
    case Reserved(s, p) =>
      && OccursAt(src, s, p)
      && (s in ["<", ">", "="] ==> p + 1 == |src| || src[p + 1] != '=')
    case Ident(s, p) =>
      && OccursAt(src, s, p)
      && (p + |s| == |src| || !IsWordChar(src[p + |s|]))
    case Num(s, v, p) =>
      && OccursAt(src, s, p)
      && Canonical(s) && v == DecimalValue(s)
      && (p + |s| == |src| || !IsDigit(src[p + |s|]))
  }

  predicate AllFaithful(src: string, ts: seq<Token>) {
    forall i | 0 <= i < |ts| :: Faithful(src, ts[i])
  }

  lemma FaithfulCons(src: string, t: Token, ts: seq<Token>)
    requires Faithful(src, t) && AllFaithful(src, ts)
    ensures AllFaithful(src, [t] + ts)
  {
    forall i | 0 <= i < |ts| + 1
      ensures Faithful(src, ([t] + ts)[i])
    {
      if i > 0 {
        assert ([t] + ts)[i] == ts[i - 1];
      }
    }
  }

  lemma OneCharFaithful(src: string, cur: string)
    requires |cur| >= 1 && |cur| <= |src| && cur == src[|src| - |cur|..]
    requires !(|cur| >= 2 && cur[..2] in TwoCharOps)
    ensures Faithful(src, Reserved(cur[..1], |src| - |cur|))
  {
    var k := |src| - |cur|;
    assert src[k..k + 1] == cur[..1];
    if |cur| >= 2 && cur[..1] in ["<", ">", "="] {
      assert cur[..1] == [cur[0]];
      assert cur[..2] == [cur[0], cur[1]];
    }
  }

  /** Under the boundary invariant, the digit run a number token reads
      has no redundant leading zero. */
  lemma NumberCanonical(src: string, cur: string)
    requires |cur| >= 1 && |cur| <= |src| && cur == src[|src| - |cur|..]
    requires IsDigit(cur[0]) && AtBoundary(src, |src| - |cur|)
    requires PlainLiterals(src)
    ensures Canonical(cur[..DigitRunLength(cur)])
  {
    ZeroEndsNumber(src, cur);
    RunCanonical(cur);
  }

  /** A `0` that starts a number is not followed by a digit, nor by the
      `x` of a base-16 prefix. */
  lemma ZeroEndsNumber(src: string, cur: string)
    requires |cur| >= 1 && |cur| <= |src| && cur == src[|src| - |cur|..]
    requires IsDigit(cur[0]) && AtBoundary(src, |src| - |cur|)
    requires PlainLiterals(src)
    ensures cur[0] == '0' && |cur| > 1 ==> !IsDigit(cur[1]) && cur[1] != 'x' && cur[1] != 'X'
  {
    var k := |src| - |cur|;
    if cur[0] == '0' && |cur| > 1 {
      assert cur[0] == src[k] && cur[1] == src[k + 1];
      assert PlainLiteralAt(src, k);
    }
  }

  /** A digit run whose leading `0` is followed by no digit is canonical. */
  lemma RunCanonical(cur: string)
    requires |cur| >= 1 && IsDigit(cur[0])
    requires cur[0] == '0' && |cur| > 1 ==> !IsDigit(cur[1])
    ensures Canonical(cur[..DigitRunLength(cur)])
  {
    var n := DigitRunLength(cur);
    var run := cur[..n];
    assert n >= 1 && run[0] == cur[0];
    assert n > 1 ==> run[1] == cur[1] && IsDigit(run[1]);
  }

  lemma NumberFaithful(src: string, cur: string) returns (val: nat)
    requires |cur| >= 1 && |cur| <= |src| && cur == src[|src| - |cur|..]
    requires DecimalStart(cur) && Canonical(cur[..DigitRunLength(cur)])
    ensures val == Strtol(cur).0
    ensures Strtol(cur).1 == cur[DigitRunLength(cur)..]
    ensures Faithful(src, Num(NatToString(val), val, |src| - |cur|))
  {
    var n := DigitRunLength(cur);
    val := Strtol(cur).0;
    ValueOfString(val);
    RunFaithful(src, cur);
    assert NatToString(val) == cur[..n];
  }

  /** A canonical digit run at the front of the unread text is a
      faithful number token at its offset. */
  lemma RunFaithful(src: string, cur: string)
    requires |cur| >= 1 && |cur| <= |src| && cur == src[|src| - |cur|..]
    requires IsDigit(cur[0]) && Canonical(cur[..DigitRunLength(cur)])
    ensures var s := cur[..DigitRunLength(cur)];
      && OccursAt(src, s, |src| - |cur|)
      && (|src| - |cur| + |s| == |src| || !IsDigit(src[|src| - |cur| + |s|]))
  {
    var k := |src| - |cur|;
    var n := DigitRunLength(cur);
    var s := cur[..n];
    assert src[k..k + n] == s;
    assert OccursAt(src, s, k);
    assert n < |cur| ==> src[k + n] == cur[n];
    assert k + |s| == |src| || !IsDigit(src[k + |s|]);
  }

  /** What one scanner step keeps: the unread text is the source's tail
      and a number cannot start right after a word character. */
  predicate TailAt(src: string, cur: string) {
    |cur| <= |src| && cur == src[|src| - |cur|..] && AtBoundary(src, |src| - |cur|)
  }

  lemma {:induction false} ScanFaithful(src: string, cur: string)
    requires TailAt(src, cur)
    requires PlainLiterals(src)
    ensures Scan(src, cur).Success? ==> AllFaithful(src, Scan(src, cur).value)
    decreases |cur|, 1
  {
    if |cur| > 0 {
      var k := |src| - |cur|;
      assert cur[0] == src[k];
      if IsSpace(cur[0]) {
        ScanFaithful(src, cur[1..]);
      } else if |cur| >= 2 && cur[..2] in TwoCharOps {
        TwoCharStepFaithful(src, cur);
      } else if cur[..1] in OneCharOps {
        OneCharStepFaithful(src, cur);
      } else if IsIdentStart(cur[0]) {
        IdentStepFaithful(src, cur);
      } else if IsDigit(cur[0]) {
        NumberStepFaithful(src, cur);
      }
    }
  }

  lemma {:induction false} TwoCharStepFaithful(src: string, cur: string)
    requires TailAt(src, cur) && PlainLiterals(src)
    requires |cur| >= 2 && !IsSpace(cur[0]) && cur[..2] in TwoCharOps
    ensures Scan(src, cur).Success? ==> AllFaithful(src, Scan(src, cur).value)
    decreases |cur|, 0
  {
    var k := |src| - |cur|;
    assert src[k + 1] == cur[1];
    ScanFaithful(src, cur[2..]);
    assert src[k..k + 2] == cur[..2];
    var rest := Scan(src, cur[2..]);
    if rest.Success? {
      FaithfulCons(src, Reserved(cur[..2], k), rest.value);
    }
  }

  lemma {:induction false} OneCharStepFaithful(src: string, cur: string)
    requires TailAt(src, cur) && PlainLiterals(src)
    requires |cur| >= 1 && !IsSpace(cur[0]) && !(|cur| >= 2 && cur[..2] in TwoCharOps)
    requires cur[..1] in OneCharOps
    ensures Scan(src, cur).Success? ==> AllFaithful(src, Scan(src, cur).value)
    decreases |cur|, 0
  {
    var k := |src| - |cur|;
    ScanFaithful(src, cur[1..]);
    OneCharFaithful(src, cur);
    var rest := Scan(src, cur[1..]);
    if rest.Success? {
      FaithfulCons(src, Reserved(cur[..1], k), rest.value);
    }
  }

  lemma {:induction false} IdentStepFaithful(src: string, cur: string)
    requires TailAt(src, cur) && PlainLiterals(src)
    requires |cur| >= 1 && !IsSpace(cur[0]) && !(|cur| >= 2 && cur[..2] in TwoCharOps)
    requires cur[..1] !in OneCharOps && IsIdentStart(cur[0])
    ensures Scan(src, cur).Success? ==> AllFaithful(src, Scan(src, cur).value)
    decreases |cur|, 0
  {
    var k := |src| - |cur|;
    var n := WordRunLength(cur);
    assert n < |cur| ==> src[k + n] == cur[n];
    ScanFaithful(src, cur[n..]);
    assert src[k..k + n] == cur[..n];
    var rest := Scan(src, cur[n..]);
    if rest.Success? {
      FaithfulCons(src, Ident(cur[..n], k), rest.value);
    }
  }

  lemma {:induction false} NumberStepFaithful(src: string, cur: string)
    requires TailAt(src, cur) && PlainLiterals(src)
    requires |cur| >= 1 && !IsSpace(cur[0]) && !(|cur| >= 2 && cur[..2] in TwoCharOps)
    requires cur[..1] !in OneCharOps && !IsIdentStart(cur[0]) && IsDigit(cur[0])
    ensures Scan(src, cur).Success? ==> AllFaithful(src, Scan(src, cur).value)
    decreases |cur|, 0
  {
    var val, n := NumberStep(src, cur);
    ScanFaithful(src, cur[n..]);
    var rest := Scan(src, cur[n..]);
    if rest.Success? {
      FaithfulCons(src, Num(NatToString(val), val, |src| - |cur|), rest.value);
    }
  }

  /** A number step reads a faithful token and leaves a tail the scanner
      invariant still holds for. */
  lemma NumberStep(src: string, cur: string) returns (val: nat, n: nat)
    requires TailAt(src, cur) && PlainLiterals(src)
    requires |cur| >= 1 && !IsSpace(cur[0]) && !(|cur| >= 2 && cur[..2] in TwoCharOps)
    requires cur[..1] !in OneCharOps && !IsIdentStart(cur[0]) && IsDigit(cur[0])
    ensures 1 <= n <= |cur| && TailAt(src, cur[n..])
    ensures Faithful(src, Num(NatToString(val), val, |src| - |cur|))
    ensures Scan(src, cur).Success? <==> Scan(src, cur[n..]).Success?
    ensures Scan(src, cur).Success? ==>
              Scan(src, cur).value == [Num(NatToString(val), val, |src| - |cur|)] + Scan(src, cur[n..]).value
  {
    n := DigitRunLength(cur);
    ZeroEndsNumber(src, cur);
    NumberCanonical(src, cur);
    val := NumberFaithful(src, cur);
    TailAfterRun(src, cur);
    DecimalScanStep(src, cur);
  }

  /** After a digit run the scanner invariant holds again: what follows
      the run is not a digit. */
  lemma TailAfterRun(src: string, cur: string)
    requires TailAt(src, cur) && |cur| >= 1 && IsDigit(cur[0])
    ensures TailAt(src, cur[DigitRunLength(cur)..])
  {
    var k := |src| - |cur|;
    var n := DigitRunLength(cur);
    assert n < |cur| ==> src[k + n] == cur[n];
    assert cur[n..] == src[k + n..];
  }

  /** On a decimal literal the scan emits one number token and goes on
      from the text `strtol` leaves. */
  lemma DecimalScanStep(src: string, cur: string)
    requires |cur| <= |src| && DecimalStart(cur)
    ensures var val, after := Strtol(cur).0, Strtol(cur).1;
      && |after| < |cur|
      && (Scan(src, cur).Success? <==> Scan(src, after).Success?)
      && (Scan(src, cur).Success? ==>
            Scan(src, cur).value == [Num(NatToString(val), val, |src| - |cur|)] + Scan(src, after).value)
  {
    NumberRule(src, cur);
    var val, after := Strtol(cur).0, Strtol(cur).1;
    if Scan(src, after).Success? {
      assert ScanNumber(src, cur) == Success([Num(NatToString(val), val, |src| - |cur|)] + Scan(src, after).value);
    }
  }

  /** Text starting with a digit, other than a `0x` prefix, goes to the
      number rule. */
  lemma NumberRule(src: string, cur: string)
    requires |cur| <= |src| && DecimalStart(cur)
    ensures Scan(src, cur) == ScanNumber(src, cur)
  {
    DigitFirst(cur);
  }

  /** No rule before the number rule applies to a leading digit. */
  lemma DigitFirst(cur: string)
    requires DecimalStart(cur)
    ensures !IsSpace(cur[0]) && !(|cur| >= 2 && cur[..2] in TwoCharOps)
    ensures cur[..1] !in OneCharOps && !IsIdentStart(cur[0]) && ParseInt(cur).Some?
  {
    assert cur[..1] == [cur[0]];
    assert |cur| >= 2 ==> cur[..2] == [cur[0], cur[1]];
  }

  /** Without leading-zero or base-16 literals, every token's text is the source
      text at its position; identifiers and numbers are maximal; and a
      one-character `<`, `>` or `=` is never the first half of a
      two-character operator. */
  lemma TokenizeFaithful(src: string)
    requires PlainLiterals(src)
    ensures Tokenize(src).Success? ==> AllFaithful(src, Tokenize(src).value)
  {
    assert TailAt(src, src);
    ScanFaithful(src, src);
  }

  /** The end-of-input defect of the source's identifier loop: with no
      text left, the guard still holds and the body changes nothing, so
      the loop never exits (an identifier at the very end of the input,
      as in `a`, hangs the tokenizer). */
  lemma IdentLoopStallsAtEnd(str: string)
    ensures IdentGuardAsWritten([])
    ensures IdentStepAsWritten(str, []) == (str, [])
  {
    assert IsWordChar(GuardArgAsWritten([])[0]);
  }
}
