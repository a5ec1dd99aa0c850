/** Integers as Python reads and writes them. */
module IntText {
  import opened Common

  predicate IsDigit(c: char) {
    '0' <= c <= '9'
  }

  /** All but the last digit, and but the underscore before it. */
  function Front(s: string): (r: string)
    requires 1 < |s|
    ensures |r| < |s|
  {
    if s[|s| - 2] == '_' then s[..|s| - 2] else s[..|s| - 1]
  }

  /** Digits, possibly with single underscores between them, as int() reads them. */
  function DigitsValue(s: string): Option<nat> {
    if s == "" || !IsDigit(s[|s| - 1]) then None
    else
      var d := s[|s| - 1] as int - '0' as int;
      if |s| == 1 then Some(d)
      else
        var front := DigitsValue(Front(s));
        if front.None? then None else Some(10 * front.value + d)
  }

  /** What int() strips from an ASCII text. Unlike str.strip() it leaves the
      separators 28 to 31 in place, and then raises. */
  predicate IsSpace(c: char) {
    9 <= (c as int) <= 13 || c == ' '
  }

  function Strip(s: string): string {
    if s == "" then ""
    else if IsSpace(s[0]) then Strip(s[1..])
    else if IsSpace(s[|s| - 1]) then Strip(s[..|s| - 1])
    else s
  }

  /** int(s); None stands for ValueError. */
  function IntValue(s: string): Option<int> {
    var t := Strip(s);
    if t == "" then None
    else
      var signed := t[0] == '+' || t[0] == '-';
      var v := DigitsValue(if signed then t[1..] else t);
      if v.None? then None
      else
        var n: int := v.value;
        Some(if t[0] == '-' then -n else n)
  }

  /** str(n) */
  function Decimal(n: nat): (s: string)
    ensures s != "" && forall i :: 0 <= i < |s| ==> IsDigit(s[i])
  {
    var last := [(n % 10 + '0' as int) as char];
    if n < 10 then last else Decimal(n / 10) + last
  }

  lemma {:induction false} DecimalDigits(n: nat)
    ensures DigitsValue(Decimal(n)) == Some(n)
  {
    if 10 <= n {
      DecimalDigits(n / 10);
      var s := Decimal(n);
      assert s[..|s| - 1] == Decimal(n / 10);
    }
  }

  lemma DecimalRoundTrip(n: nat)
    ensures IntValue(Decimal(n)) == Some(n)
  {
    DecimalDigits(n);
    var s := Decimal(n);
    assert IsDigit(s[0]) && IsDigit(s[|s| - 1]);
  }

  // ---- which texts are integers ----

  /** Digits with single underscores between them. */
  predicate Numeral(s: string) {
    && s != "" && IsDigit(s[0]) && IsDigit(s[|s| - 1])
    && (forall i :: 0 <= i < |s| ==> IsDigit(s[i]) || s[i] == '_')
    && forall i :: 0 < i < |s| ==> IsDigit(s[i - 1]) || IsDigit(s[i])
  }

  predicate SignedNumeral(s: string) {
    s != "" && Numeral(if s[0] == '+' || s[0] == '-' then s[1..] else s)
  }

  /** All of s outside i..j is white space. */
  predicate Framed(s: string, i: nat, j: nat) {
    && i <= j <= |s|
    && (forall k :: 0 <= k < i ==> IsSpace(s[k])) && forall k :: j <= k < |s| ==> IsSpace(s[k])
  }

  predicate NumeralAt(s: string, i: nat, j: nat) {
    Framed(s, i, j) && SignedNumeral(s[i..j])
  }

  /** A numeral, perhaps with a sign, between spaces. */
  ghost predicate IsIntText(s: string) {
    exists i, j :: 0 <= i <= j <= |s| && NumeralAt(s, i, j)
  }

  lemma {:induction false} DigitsIff(s: string)
    ensures DigitsValue(s).Some? <==> Numeral(s)
  {
    if 1 < |s| && IsDigit(s[|s| - 1]) {
      var front := Front(s);
      DigitsIff(front);
      NumeralFront(s, front);
    }
  }

  lemma NumeralFront(s: string, front: string)
    requires 1 < |s| && IsDigit(s[|s| - 1]) && front == Front(s)
    ensures Numeral(s) <==> Numeral(front)
  {
    assert forall i :: 0 <= i < |front| ==> s[i] == front[i];
    assert Numeral(front) ==> forall i :: 0 <= i < |s| ==> i < |front| || IsDigit(s[i]) || s[i] == '_';
  }

  lemma {:induction false} StripSplits(s: string) returns (i: nat, j: nat)
    ensures Framed(s, i, j) && Strip(s) == s[i..j]
  {
    i, j := 0, |s|;
    if s != "" && IsSpace(s[0]) {
      var t := s[1..];
      i, j := StripSplits(t);
      assert s[i + 1..j + 1] == t[i..j];
      i, j := i + 1, j + 1;
      assert forall k :: 1 <= k < |s| ==> s[k] == t[k - 1];
    } else if s != "" && IsSpace(s[|s| - 1]) {
      var t := s[..|s| - 1];
      i, j := StripSplits(t);
      assert s[i..j] == t[i..j];
    }
  }

  lemma StripFirst(s: string)
    requires s != "" && IsSpace(s[0])
    ensures Strip(s) == Strip(s[1..])
  {
  }

  lemma StripLast(s: string)
    requires s != "" && !IsSpace(s[0]) && IsSpace(s[|s| - 1])
    ensures Strip(s) == Strip(s[..|s| - 1])
  {
  }

  lemma SliceOfTail(s: string, i: nat, j: nat)
    requires 0 < i <= j <= |s|
    ensures s[1..][i - 1..j - 1] == s[i..j]
  {
  }

  lemma {:induction false} StripFinds(s: string, i: nat, j: nat)
    requires Framed(s, i, j) && i < j && !IsSpace(s[i]) && !IsSpace(s[j - 1])
    ensures Strip(s) == s[i..j]
    decreases |s|
  {
    if 0 < i {
      var t := s[1..];
      StripFirst(s);
      SliceOfTail(s, i, j);
      StripFinds(t, i - 1, j - 1);
    } else if j < |s| {
      var t := s[..|s| - 1];
      StripLast(s);
      StripFinds(t, i, j);
      assert t[i..j] == s[i..j];
    } else {
      assert s[i..j] == s;
    }
  }

  lemma SignedNumeralEnds(s: string)
    requires SignedNumeral(s)
    ensures !IsSpace(s[0]) && !IsSpace(s[|s| - 1])
  {
  }

  /** What int() does once the spaces are gone. */
  lemma StrippedIff(s: string)
    ensures IntValue(s).Some? <==> SignedNumeral(Strip(s))
  {
    var t := Strip(s);
    if t != "" {
      DigitsIff(if t[0] == '+' || t[0] == '-' then t[1..] else t);
    }
  }

  lemma NumeralIsStripped(s: string, i: nat, j: nat)
    requires NumeralAt(s, i, j)
    ensures Strip(s) == s[i..j]
  {
    var t := s[i..j];
    SignedNumeralEnds(t);
    assert t[0] == s[i] && t[|t| - 1] == s[j - 1];
    StripFinds(s, i, j);
  }

  lemma StrippedIsIntText(s: string)
    requires SignedNumeral(Strip(s))
    ensures IsIntText(s)
  {
    var i, j := StripSplits(s);
    assert NumeralAt(s, i, j);
  }

  /** The texts that int() takes, and no others: it raises for all the rest. */
  lemma IntIff(s: string)
    ensures IntValue(s).Some? <==> IsIntText(s)
  {
    StrippedIff(s);
    if IsIntText(s) {
      var i, j :| 0 <= i <= j <= |s| && NumeralAt(s, i, j);
      NumeralIsStripped(s, i, j);
    } else if SignedNumeral(Strip(s)) {
      StrippedIsIntText(s);
    }
  }

  predicate MayOccur(c: char) {
    IsSpace(c) || IsDigit(c) || c in {'_', '+', '-'}
  }

  lemma NumeralCharacters(s: string, k: nat)
    requires SignedNumeral(s) && k < |s|
    ensures MayOccur(s[k])
  {
    if s[0] == '+' || s[0] == '-' {
      assert 0 < k ==> s[k] == s[1..][k - 1];
    }
  }

  lemma IntCharacters(s: string, i: nat, j: nat, k: nat)
    requires NumeralAt(s, i, j) && k < |s|
    ensures MayOccur(s[k])
  {
    if i <= k < j {
      NumeralCharacters(s[i..j], k - i);
    }
  }

  /** One character of any other kind, wherever it stands, makes int() raise. */
  lemma OddCharacterRaises(s: string, k: nat)
    requires k < |s| && !MayOccur(s[k])
    ensures IntValue(s).None?
  {
    IntIff(s);
    if IsIntText(s) {
      var i, j :| 0 <= i <= j <= |s| && NumeralAt(s, i, j);
      IntCharacters(s, i, j, k);
    }
  }

  /** A file separator is white space elsewhere in Python, but not here. */
  lemma SeparatorRaises()
    ensures IntValue([28 as char] + "512").None? && IntValue([9 as char] + "512") == Some(512)
  {
    OddCharacterRaises([28 as char] + "512", 0);
    var s := [9 as char] + "512";
    StripFinds(s, 1, 4);
    assert s[1..4] == "512" && "512"[..2] == "51" && "51"[..1] == "5";
  }

  // ---- their values ----

  function Without(s: string, c: char): string {
    if s == "" then "" else Without(s[..|s| - 1], c) + if s[|s| - 1] == c then "" else [s[|s| - 1]]
  }

  lemma {:induction false} NoneLeft(s: string, c: char)
    ensures c !in Without(s, c)
  {
    if s != "" {
      NoneLeft(s[..|s| - 1], c);
    }
  }

  /** Underscores do not change the value. */
  lemma {:induction false} UnderscoresDoNotCount(s: string)
    requires Numeral(s)
    ensures DigitsValue(Without(s, '_')) == DigitsValue(s)
  {
    DigitsIff(s);
    if 1 < |s| {
      var front := Front(s);
      NumeralFront(s, front);
      DigitsIff(front);
      UnderscoresDoNotCount(front);
      WithoutFront(s, front);
      NoneLeft(front, '_');
      ReadLast(Without(front, '_'), s[|s| - 1]);
    } else {
      assert Without(s[..0], '_') == "" && Without(s, '_') == [s[0]];
    }
  }

  lemma ReadLast(front: string, c: char)
    requires front != "" && front[|front| - 1] != '_' && IsDigit(c) && DigitsValue(front).Some?
    ensures DigitsValue(front + [c]) == Some(10 * DigitsValue(front).value + (c as int - '0' as int))
  {
    FrontOfSnoc(front, c);
    DigitsUnfold(front + [c], front, c);
  }

  lemma DigitsUnfold(s: string, front: string, c: char)
    requires 1 < |s| && s[|s| - 1] == c && IsDigit(c) && Front(s) == front && DigitsValue(front).Some?
    ensures DigitsValue(s) == Some(10 * DigitsValue(front).value + (c as int - '0' as int))
  {
  }

  lemma FrontOfSnoc(front: string, c: char)
    requires front != "" && front[|front| - 1] != '_'
    ensures Front(front + [c]) == front
  {
    assert (front + [c])[..|front|] == front;
  }

  lemma WithoutFront(s: string, front: string)
    requires 1 < |s| && s[|s| - 1] != '_' && front == Front(s)
    ensures Without(s, '_') == Without(front, '_') + [s[|s| - 1]]
  {
    var prefix := s[..|s| - 1];
    assert prefix[|prefix| - 1] == s[|s| - 2] && prefix[..|prefix| - 1] == s[..|s| - 2];
  }

  /** Nor do zeros in front. */
  lemma {:induction false} ZerosDoNotCount(s: string)
    requires Numeral(s)
    ensures DigitsValue("0" + s) == DigitsValue(s)
  {
    if |s| == 1 {
      assert ("0" + s)[..1] == "0";
    } else {
      var front := Front(s);
      NumeralFront(s, front);
      ZerosDoNotCount(front);
      DigitsIff(front);
      FrontOfZero(s);
      DigitsUnfold(s, front, s[|s| - 1]);
      DigitsUnfold("0" + s, "0" + front, s[|s| - 1]);
    }
  }

  lemma FrontOfZero(s: string)
    requires 1 < |s|
    ensures Front("0" + s) == "0" + Front(s)
  {
    var z := "0" + s;
    assert z[|z| - 2] == s[|s| - 2];
  }

  /** A sign and white space around it are read as meant. */
  lemma SignedRoundTrip(n: nat, before: string, after: string)
    requires forall k :: 0 <= k < |before| ==> IsSpace(before[k])
    requires forall k :: 0 <= k < |after| ==> IsSpace(after[k])
    ensures IntValue(before + Decimal(n) + after) == Some(n)
    ensures IntValue(before + ("+" + Decimal(n)) + after) == Some(n)
    ensures IntValue(before + ("-" + Decimal(n)) + after) == Some(0 - n as int)
  {
    DecimalDigits(n);
    var d := Decimal(n);
    StripSurrounded(before, d, after);
    StripSurrounded(before, "+" + d, after);
    StripSurrounded(before, "-" + d, after);
    assert ("+" + d)[1..] == d && ("-" + d)[1..] == d;
    assert IsDigit(d[0]);
  }

  lemma StripSurrounded(before: string, t: string, after: string)
    requires forall k :: 0 <= k < |before| ==> IsSpace(before[k])
    requires forall k :: 0 <= k < |after| ==> IsSpace(after[k])
    requires t != "" && !IsSpace(t[0]) && !IsSpace(t[|t| - 1])
    ensures Strip(before + t + after) == t
  {
    var s := before + t + after;
    assert s[|before|] == t[0] && s[|before| + |t| - 1] == t[|t| - 1];
    StripFinds(s, |before|, |before| + |t|);
    assert s[|before|..|before| + |t|] == t;
  }

  /** str() writes no zero in front. */
  lemma {:induction false} DecimalIsCanonical(n: nat)
    ensures |Decimal(n)| == 1 || Decimal(n)[0] != '0'
    ensures n != 0 ==> Decimal(n)[0] != '0'
  {
    if 10 <= n {
      DecimalIsCanonical(n / 10);
    }
  }
}
