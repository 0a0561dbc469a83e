/** The java.lang.String and Integer operations the settings parsing relies
    on: String.split around one character, joining pieces back, and
    Integer.parseInt / Integer.toString in base 10. */
module Text {
  import opened Base
  import opened MasterKeys

  /** All pieces of `s` between occurrences of `c`, empty ones included
      (String.split with a negative limit). */
  function SplitAll(s: string, c: char): (r: seq<string>)
    ensures |r| >= 1
    decreases |s|
  {
    if s == [] then [""]
    else if s[0] == c then [""] + SplitAll(s[1..], c)
    else
      var rest := SplitAll(s[1..], c);
      [[s[0]] + rest[0]] + rest[1..]
  }

  /** The pieces with `c` between neighbours. */
  function Join(pieces: seq<string>, c: char): (r: string)
    requires |pieces| >= 1
    ensures pieces[0] <= r
    ensures |pieces| > 1 ==> |r| > |pieces[0]| && r[|pieces[0]|] == c
  {
    if |pieces| == 1 then pieces[0] else pieces[0] + [c] + Join(pieces[1..], c)
  }

  predicate Free(s: string, c: char) {
    forall i :: 0 <= i < |s| ==> s[i] != c
  }

  /** Splitting a piece free of `c` in front of the rest. */
  lemma {:induction false} SplitFreePrefix(p: string, t: string, c: char)
    requires Free(p, c)
    ensures SplitAll(p + t, c) == [p + SplitAll(t, c)[0]] + SplitAll(t, c)[1..]
    decreases |p|
  {
    if p != [] {
      assert (p + t)[1..] == p[1..] + t;
      assert Free(p[1..], c);
      SplitFreePrefix(p[1..], t, c);
      assert [p[0]] + (p[1..] + SplitAll(t, c)[0]) == p + SplitAll(t, c)[0];
    } else {
      var h := SplitAll(t, c);
      assert p + t == t && p + h[0] == h[0];
      assert h == [h[0]] + h[1..];
    }
  }

  /** Splitting what was joined gives back the pieces, when none of them
      contains the separator. */
  lemma {:induction false} SplitJoin(pieces: seq<string>, c: char)
    requires |pieces| >= 1
    requires forall i :: 0 <= i < |pieces| ==> Free(pieces[i], c)
    ensures SplitAll(Join(pieces, c), c) == pieces
  {
    if |pieces| == 1 {
      SplitFreePrefix(pieces[0], "", c);
      assert pieces[0] + "" == pieces[0];
      assert pieces[0] + SplitAll("", c)[0] == pieces[0];
    } else {
      var rest := Join(pieces[1..], c);
      SplitJoin(pieces[1..], c);
      assert pieces[0] + [c] + rest == pieces[0] + ([c] + rest);
      SplitFreePrefix(pieces[0], [c] + rest, c);
      assert ([c] + rest)[1..] == rest;
      var q := SplitAll([c] + rest, c);
      assert q == [""] + pieces[1..];
      assert pieces[0] + q[0] == pieces[0];
      assert pieces == [pieces[0]] + pieces[1..];
    }
  }

  /** Joining the pieces of a split gives back the text, and no piece holds
      the separator. */
  lemma {:induction false} JoinSplit(s: string, c: char)
    ensures Join(SplitAll(s, c), c) == s
    ensures forall i :: 0 <= i < |SplitAll(s, c)| ==> Free(SplitAll(s, c)[i], c)
    decreases |s|
  {
    if s != [] {
      JoinSplit(s[1..], c);
      var rest := SplitAll(s[1..], c);
      if s[0] == c {
        assert SplitAll(s, c)[1..] == rest;
      } else {
        var r := SplitAll(s, c);
        assert r[0] == [s[0]] + rest[0];
        assert r[1..] == rest[1..];
        if |rest| > 1 {
          assert rest == [rest[0]] + rest[1..];
          assert Join(rest, c) == rest[0] + [c] + Join(rest[1..], c);
        }
        assert s == [s[0]] + s[1..];
      }
    }
  }

  /** The longest prefix of `ps` that does not end in an empty string. */
  function DropTrailingEmpty(ps: seq<string>): (r: seq<string>)
    ensures r <= ps
    ensures r == [] || r[|r| - 1] != ""
    ensures forall i :: |r| <= i < |ps| ==> ps[i] == ""
  {
    if ps == [] || ps[|ps| - 1] != "" then ps else DropTrailingEmpty(ps[..|ps| - 1])
  }

  /** String.split(String.valueOf(c)): without an occurrence of `c` the text
      itself, otherwise every piece with trailing empty pieces removed. */
  function JavaSplit(s: string, c: char): (r: seq<string>)
    ensures c !in s ==> r == [s]
    ensures forall i :: 0 <= i < |r| ==> Free(r[i], c)
  {
    if c !in s then [s]
    else
      JoinSplit(s, c);
      DropTrailingEmpty(SplitAll(s, c))
  }

  /** Pieces that hold no separator and do not end with an empty piece
      survive a join followed by String.split. */
  lemma JavaSplitJoin(pieces: seq<string>, c: char)
    requires |pieces| >= 1 && pieces[|pieces| - 1] != ""
    requires forall i :: 0 <= i < |pieces| ==> Free(pieces[i], c)
    ensures JavaSplit(Join(pieces, c), c) == pieces
  {
    SplitJoin(pieces, c);
    var s := Join(pieces, c);
    if c in s {
      var r := DropTrailingEmpty(pieces);
      assert r == pieces[..|r|];
    }
  }

  // ---- Integer.parseInt and Integer.toString ------------------------------

  predicate IsDigit(ch: char) {
    '0' <= ch <= '9'
  }

  predicate AllDigits(s: string) {
    forall i :: 0 <= i < |s| ==> IsDigit(s[i])
  }

  /** The value of a string of decimal digits, most significant first. */
  function DigitsValue(s: string): nat
    requires AllDigits(s)
  {
    if s == [] then 0 else 10 * DigitsValue(s[..|s| - 1]) + (s[|s| - 1] as int - '0' as int)
  }

  /** Integer.parseInt(s): an optional '+' or '-', then at least one decimal
      digit, with a value that fits an `int`; anything else raises
      NumberFormatException. */
  function ParseInt(s: string): (r: Result<int>)
    ensures r.Ok? ==> IsInt32(r.value)
    ensures r.Err? ==> r.error == NumberFormat(s)
    ensures r.Ok? ==> |s| >= 1 && AllDigits(s[1..])
  {
    var signed := |s| > 0 && (s[0] == '-' || s[0] == '+');
    var digits := if signed then s[1..] else s;
    if digits == [] || !AllDigits(digits) then Err(NumberFormat(s))
    else
      var v: int := if signed && s[0] == '-' then -(DigitsValue(digits) as int) else DigitsValue(digits);
      if IsInt32(v) then Ok(v) else Err(NumberFormat(s))
  }

  /** The decimal digits of `n`, without leading zeros. */
  function Decimal(n: nat): (r: string)
    ensures |r| >= 1 && AllDigits(r)
  {
    if n < 10 then ['0' + n as char]
    else Decimal(n / 10) + ['0' + (n % 10) as char]
  }

  lemma {:induction false} DecimalValue(n: nat)
    ensures DigitsValue(Decimal(n)) == n
  {
    if n >= 10 {
      DecimalValue(n / 10);
      var s := Decimal(n);
      assert s[..|s| - 1] == Decimal(n / 10);
    }
  }

  /** Integer.toString(n). */
  function IntToString(n: int): string {
    if n < 0 then "-" + Decimal(-n) else Decimal(n)
  }

  /** Integer.parseInt reads back what Integer.toString writes. */
  lemma ParseIntToString(n: int)
    requires IsInt32(n)
    ensures ParseInt(IntToString(n)) == Ok(n)
  {
    var s := IntToString(n);
    if n < 0 {
      DecimalValue(-n);
      assert s[0] == '-' && s[1..] == Decimal(-n);
    } else {
      DecimalValue(n);
      assert IsDigit(s[0]);
    }
  }

  /** No number is written with a comma. */
  lemma IntToStringFree(n: int, c: char)
    requires c != '-' && !IsDigit(c)
    ensures Free(IntToString(n), c) && IntToString(n) != ""
  {
    if n < 0 {
      var d := Decimal(-n);
      assert forall i :: 0 <= i < |d| ==> IsDigit(d[i]);
      assert forall i :: 1 <= i < |"-" + d| ==> ("-" + d)[i] == d[i - 1];
    }
  }
}
