/** The few pieces of Java's runtime library whose exact behaviour the login code
    depends on: nullable references, `String.valueOf(Integer)` and `String.split`. */
module JavaLang {

  /** A Java reference that may be null. */
  datatype Option<+T> = None | Some(value: T)

  /** The outcome of a Java call: its value, or the exception it throws. */
  datatype Result<+T, +E> = Success(value: T) | Failure(error: E)

  /** The values a `java.lang.Integer` can hold. */
  type Int32 = x: int | -0x8000_0000 <= x < 0x8000_0000

  // ---------------------------------------------------------------------------
  // Decimal rendering of integers (`Integer.toString`, `String.valueOf`)
  // ---------------------------------------------------------------------------

  predicate IsDigit(ch: char) {
    '0' <= ch <= '9'
  }

  predicate AllDigits(s: string) {
    forall k :: 0 <= k < |s| ==> IsDigit(s[k])
  }

  function DigitChar(d: nat): (ch: char)
    requires d < 10
    ensures IsDigit(ch) && ch as int - '0' as int == d
  {
    ('0' as int + d) as char
  }

  /** The decimal digits of `n`, most significant first, without leading zeros. */
  function Digits(n: nat): (s: string)
    ensures |s| >= 1 && AllDigits(s)
    decreases n
  {
    if n < 10 then [DigitChar(n)] else Digits(n / 10) + [DigitChar(n % 10)]
  }

  /** `Integer.toString(n)`: an optional minus sign followed by the digits of |n|. */
  function DecimalString(n: int): (s: string)
    ensures |s| >= 1
    ensures n < 0 <==> s[0] == '-'
    ensures n >= 0 ==> AllDigits(s)
    ensures n < 0 ==> |s| >= 2 && AllDigits(s[1..])
  {
    if n < 0 then "-" + Digits(-n) else Digits(n)
  }

  /** `String.valueOf(Object)` applied to an `Integer` that may be null. */
  function ValueOf(n: Option<Int32>): string {
    match n
    case None => "null"
    case Some(v) => DecimalString(v)
  }

  /** The number a string of decimal digits denotes. */
  function DigitsValue(s: string): nat
    requires AllDigits(s)
  {
    if s == [] then 0 else DigitsValue(s[..|s| - 1]) * 10 + (s[|s| - 1] as int - '0' as int)
  }

  /** The decimal parser inverse to `DecimalString`. */
  function ParseDecimal(s: string): Option<int> {
    if |s| >= 2 && s[0] == '-' && AllDigits(s[1..]) then
      var magnitude: int := DigitsValue(s[1..]);
      Some(-magnitude)
    else if |s| >= 1 && AllDigits(s) then Some(DigitsValue(s))
    else None
  }

  lemma {:induction false} DigitsRoundTrip(n: nat)
    ensures DigitsValue(Digits(n)) == n
    decreases n
  {
    if n >= 10 {
      var s := Digits(n);
      assert s[..|s| - 1] == Digits(n / 10);
      DigitsRoundTrip(n / 10);
    }
  }

  /** Parsing the decimal rendering gives the number back. */
  lemma DecimalRoundTrip(n: int)
    ensures ParseDecimal(DecimalString(n)) == Some(n)
  {
    if n < 0 {
      assert DecimalString(n)[1..] == Digits(-n);
      DigitsRoundTrip(-n);
    } else {
      DigitsRoundTrip(n);
    }
  }

  /** Distinct integers, and a missing integer, all render differently:
      `"null"` is not the rendering of any number. */
  lemma ValueOfInjective(a: Option<Int32>, b: Option<Int32>)
    ensures ValueOf(a) == ValueOf(b) <==> a == b
  {
    if a.Some? && b.Some? && ValueOf(a) == ValueOf(b) {
      DecimalRoundTrip(a.value);
      DecimalRoundTrip(b.value);
    }
    if a.None? && b.Some? {
      assert ValueOf(a)[0] == 'n';
    }
    if a.Some? && b.None? {
      assert ValueOf(b)[0] == 'n';
    }
  }

  // ---------------------------------------------------------------------------
  // `String.split` with a one-character, non-special separator and limit 0
  // ---------------------------------------------------------------------------

  /** Every piece of `s` between occurrences of `c`, empty ones included: one
      more piece than there are occurrences of `c`. */
  function Pieces(s: string, c: char): (r: seq<string>)
    ensures |r| >= 1
    ensures forall k :: 0 <= k < |r| ==> c !in r[k]
    decreases |s|
  {
    if s == [] then [""]
    else
      var rest := Pieces(s[1..], c);
      if s[0] == c then [""] + rest else [[s[0]] + rest[0]] + rest[1..]
  }

  /** The pieces glued back together with `c` between neighbours. */
  function Join(ps: seq<string>, c: char): string
    requires |ps| >= 1
  {
    if |ps| == 1 then ps[0] else ps[0] + [c] + Join(ps[1..], c)
  }

  /** The list with its trailing empty strings removed. */
  function DropTrailingEmpty(ps: seq<string>): (r: seq<string>)
    ensures |r| <= |ps| && r == ps[..|r|]
    ensures r == [] || r[|r| - 1] != ""
    ensures forall k :: |r| <= k < |ps| ==> ps[k] == ""
  {
    if ps == [] then []
    else if ps[|ps| - 1] == "" then DropTrailingEmpty(ps[..|ps| - 1])
    else ps
  }

  /** `s.split(String.valueOf(c))` as the JDK computes it when `c` is not a
      regular-expression metacharacter (the code splits on a space): a string
      without `c` yields itself as the only element (even the empty string);
      otherwise the pieces between occurrences of `c`, runs of `c` giving empty
      pieces, with the trailing empty pieces dropped. */
  function Split(s: string, c: char): (r: seq<string>)
    ensures forall k :: 0 <= k < |r| ==> c !in r[k]
  {
    if c !in s then [s] else DropTrailingEmpty(Pieces(s, c))
  }

  lemma {:induction false} JoinPieces(s: string, c: char)
    ensures Join(Pieces(s, c), c) == s
    decreases |s|
  {
    if s != [] {
      var rest := Pieces(s[1..], c);
      JoinPieces(s[1..], c);
      if s[0] == c {
        assert Pieces(s, c)[1..] == rest;
      } else {
        var ps := Pieces(s, c);
        if |rest| == 1 {
          assert ps == [[s[0]] + rest[0]];
        } else {
          assert ps[1..] == rest[1..];
          assert Join(rest, c) == rest[0] + [c] + Join(rest[1..], c);
        }
      }
      assert s == [s[0]] + s[1..];
    }
  }

  /** Split loses nothing but trailing separators: the kept pieces, followed by
      empty ones, are exactly the pieces of `s`, which join back to `s`. */
  lemma SplitRoundTrip(s: string, c: char)
    ensures c in s ==> Split(s, c) == Pieces(s, c)[..|Split(s, c)|]
    ensures c in s ==> forall k :: |Split(s, c)| <= k < |Pieces(s, c)| ==> Pieces(s, c)[k] == ""
    ensures Join(Pieces(s, c), c) == s
    ensures c !in s ==> Split(s, c) == [s]
    ensures c in s ==> Split(s, c) == [] || Split(s, c)[|Split(s, c)| - 1] != ""
  {
    JoinPieces(s, c);
  }

  /** `s` has a character other than `c` somewhere after an occurrence of `c`. */
  predicate HasWordAfter(s: string, c: char) {
    exists i, j :: 0 <= i < j < |s| && s[i] == c && s[j] != c
  }

  /** `s` has a character other than `c`. */
  predicate HasOther(s: string, c: char) {
    exists j :: 0 <= j < |s| && s[j] != c
  }

  /** Some element of `ps` at index `m` or later is non-empty. */
  predicate NonEmptyFrom(ps: seq<string>, m: nat) {
    exists k :: m <= k < |ps| && ps[k] != ""
  }

  lemma {:induction false} SomeNonEmptyPiece(s: string, c: char)
    ensures NonEmptyFrom(Pieces(s, c), 0) <==> HasOther(s, c)
    decreases |s|
  {
    if s != [] {
      var rest := Pieces(s[1..], c);
      var ps := Pieces(s, c);
      SomeNonEmptyPiece(s[1..], c);
      if s[0] == c {
        assert ps == [""] + rest;
        if NonEmptyFrom(ps, 0) {
          var k :| 0 <= k < |ps| && ps[k] != "";
          assert rest[k - 1] != "";
          assert NonEmptyFrom(rest, 0);
          var j :| 0 <= j < |s[1..]| && s[1..][j] != c;
          assert s[j + 1] != c;
        }
        if HasOther(s, c) {
          var j :| 0 <= j < |s| && s[j] != c;
          assert s[1..][j - 1] != c;
          assert HasOther(s[1..], c);
          var k :| 0 <= k < |rest| && rest[k] != "";
          assert ps[k + 1] != "";
        }
      } else {
        assert ps[0] != "";
      }
    }
  }

  lemma {:induction false} NonEmptyLaterPiece(s: string, c: char)
    ensures NonEmptyFrom(Pieces(s, c), 1) <==> HasWordAfter(s, c)
    decreases |s|, 1
  {
    if s != [] {
      if s[0] == c {
        NonEmptyLaterPieceAtSeparator(s, c);
      } else {
        NonEmptyLaterPieceAtOther(s, c);
      }
    }
  }

  lemma {:induction false} NonEmptyLaterPieceAtSeparator(s: string, c: char)
    requires s != [] && s[0] == c
    ensures NonEmptyFrom(Pieces(s, c), 1) <==> HasWordAfter(s, c)
  {
    var rest := Pieces(s[1..], c);
    var ps := Pieces(s, c);
    assert ps == [""] + rest;
    SomeNonEmptyPiece(s[1..], c);
    if NonEmptyFrom(ps, 1) {
      var k :| 1 <= k < |ps| && ps[k] != "";
      assert rest[k - 1] != "";
      assert NonEmptyFrom(rest, 0);
      var j :| 0 <= j < |s[1..]| && s[1..][j] != c;
      assert s[0] == c && s[j + 1] != c;
    }
    if HasWordAfter(s, c) {
      var i, j :| 0 <= i < j < |s| && s[i] == c && s[j] != c;
      assert s[1..][j - 1] != c;
      assert HasOther(s[1..], c);
      var k :| 0 <= k < |rest| && rest[k] != "";
      assert ps[k + 1] != "";
    }
  }

  lemma {:induction false} NonEmptyLaterPieceAtOther(s: string, c: char)
    requires s != [] && s[0] != c
    ensures NonEmptyFrom(Pieces(s, c), 1) <==> HasWordAfter(s, c)
    decreases |s|, 0
  {
    NonEmptyLaterPiece(s[1..], c);
    LaterPiecesAtOther(s, c);
    WordAfterAtOther(s, c);
  }

  /** Past the first, the pieces of `s` are those of its tail when `s` starts with
      another character. */
  lemma LaterPiecesAtOther(s: string, c: char)
    requires s != [] && s[0] != c
    ensures NonEmptyFrom(Pieces(s, c), 1) <==> NonEmptyFrom(Pieces(s[1..], c), 1)
  {
    var rest := Pieces(s[1..], c);
    var ps := Pieces(s, c);
    assert |ps| == |rest| && forall k :: 1 <= k < |ps| ==> ps[k] == rest[k];
    if NonEmptyFrom(ps, 1) {
      var k :| 1 <= k < |ps| && ps[k] != "";
      assert rest[k] != "";
    }
    if NonEmptyFrom(rest, 1) {
      var k :| 1 <= k < |rest| && rest[k] != "";
      assert ps[k] != "";
    }
  }

  /** A leading character other than `c` neither starts nor ends a word after `c`. */
  lemma WordAfterAtOther(s: string, c: char)
    requires s != [] && s[0] != c
    ensures HasWordAfter(s, c) <==> HasWordAfter(s[1..], c)
  {
    if HasWordAfter(s[1..], c) {
      var i, j :| 0 <= i < j < |s[1..]| && s[1..][i] == c && s[1..][j] != c;
      assert s[i + 1] == c && s[j + 1] != c;
    }
    if HasWordAfter(s, c) {
      var i, j :| 0 <= i < j < |s| && s[i] == c && s[j] != c;
      assert s[1..][i - 1] == c && s[1..][j - 1] != c;
    }
  }

  /** Split yields two or more elements exactly when some non-separator
      character follows a separator. */
  lemma SplitHasSeveral(s: string, c: char)
    ensures |Split(s, c)| > 1 <==> HasWordAfter(s, c)
  {
    if c in s {
      var ps := Pieces(s, c);
      var r := Split(s, c);
      NonEmptyLaterPiece(s, c);
      if HasWordAfter(s, c) {
        var k :| 1 <= k < |ps| && ps[k] != "";
        assert k < |r|;
      }
      if |r| > 1 {
        assert 1 <= |r| - 1 < |ps| && ps[|r| - 1] != "";
        assert NonEmptyFrom(ps, 1);
      }
    }
  }
}
