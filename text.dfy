/**
 * The string handling the bot's commands rely on: Python's `str.count(" ")`,
 * `str.split(" ")`, the `[i for i in ... if i]` filter that turns a message
 * into its arguments, `" ".join(...)`, and the decimal rendering and parsing
 * of integers done by f-strings and `int()`.
 */
module Text {
  import opened Wrappers

  /** A word: non-empty and free of spaces, as chat nicks and emote names are. */
  predicate IsWord(w: string) {
    w != [] && ' ' !in w
  }

  predicate AllWords(ws: seq<string>) {
    forall i :: 0 <= i < |ws| ==> IsWord(ws[i])
  }

  /** Python's `s.count(" ")`. */
  function CountSpaces(s: string): nat {
    if s == [] then 0 else (if s[0] == ' ' then 1 else 0) + CountSpaces(s[1..])
  }

  /** Python's `s.split(" ")`: the pieces between single spaces, empty pieces included. */
  function Split(s: string): (pieces: seq<string>)
    ensures |pieces| == CountSpaces(s) + 1
    ensures forall k :: 0 <= k < |pieces| ==> ' ' !in pieces[k]
  {
    if s == [] then [""]
    else if s[0] == ' ' then [""] + Split(s[1..])
    else
      var rest := Split(s[1..]);
      [[s[0]] + rest[0]] + rest[1..]
  }

  /** Python's `" ".join(ws)`. */
  function Join(ws: seq<string>): string {
    if ws == [] then ""
    else if |ws| == 1 then ws[0]
    else ws[0] + " " + Join(ws[1..])
  }

  /** The non-empty pieces, in order (the `if i` filter of a list comprehension). */
  function NonEmpty(pieces: seq<string>): (r: seq<string>)
    ensures |r| <= |pieces|
    ensures forall w :: w in r <==> w in pieces && w != []
  {
    if pieces == [] then []
    else (if pieces[0] == [] then [] else [pieces[0]]) + NonEmpty(pieces[1..])
  }

  /** `[i for i in s.split(" ") if i]`: the arguments of a chat message. */
  function Tokens(s: string): (r: seq<string>)
    ensures |r| <= CountSpaces(s) + 1
    ensures AllWords(r)
  {
    var pieces := Split(s);
    var r := NonEmpty(pieces);
    assert forall k :: 0 <= k < |r| ==> r[k] in pieces;
    r
  }

  /** Joining the pieces of a split gives back the original text. */
  lemma {:induction false} JoinSplit(s: string)
    ensures Join(Split(s)) == s
  {
    if s == [] {
    } else if s[0] == ' ' {
      JoinSplit(s[1..]);
      assert s == " " + s[1..];
    } else {
      var rest := Split(s[1..]);
      JoinSplit(s[1..]);
      if |rest| == 1 {
        assert Split(s) == [[s[0]] + rest[0]];
      } else {
        assert Join(rest) == rest[0] + " " + Join(rest[1..]);
        assert Split(s)[1..] == rest[1..];
        assert s == [s[0]] + rest[0] + " " + Join(rest[1..]);
      }
    }
  }

  /** Splitting at a space splits the two halves independently. */
  lemma {:induction false} SplitConcat(x: string, y: string)
    ensures Split(x + " " + y) == Split(x) + Split(y)
  {
    if x == [] {
      assert x + " " + y == " " + y;
      assert (" " + y)[1..] == y;
    } else {
      assert (x + " " + y)[0] == x[0];
      assert (x + " " + y)[1..] == x[1..] + " " + y;
      SplitConcat(x[1..], y);
    }
  }

  lemma {:induction false} NonEmptyConcat(a: seq<string>, b: seq<string>)
    ensures NonEmpty(a + b) == NonEmpty(a) + NonEmpty(b)
  {
    if a == [] {
      assert a + b == b;
    } else {
      assert (a + b)[0] == a[0];
      assert (a + b)[1..] == a[1..] + b;
      NonEmptyConcat(a[1..], b);
    }
  }

  /** The arguments of `x + " " + y` are those of `x` followed by those of `y`. */
  lemma TokensConcat(x: string, y: string)
    ensures Tokens(x + " " + y) == Tokens(x) + Tokens(y)
  {
    SplitConcat(x, y);
    NonEmptyConcat(Split(x), Split(y));
  }

  lemma {:induction false} SplitWord(w: string)
    requires ' ' !in w
    ensures Split(w) == [w]
  {
    if w != [] {
      SplitWord(w[1..]);
      assert w == [w[0]] + w[1..];
    }
  }

  /** A single word is its own only argument. */
  lemma TokensOfWord(w: string)
    requires IsWord(w)
    ensures Tokens(w) == [w]
  {
    SplitWord(w);
  }

  /** Splitting a space-joined list of words gives back the list. */
  lemma {:induction false} TokensJoin(ws: seq<string>)
    requires AllWords(ws)
    ensures Tokens(Join(ws)) == ws
  {
    if ws == [] {
    } else if |ws| == 1 {
      TokensOfWord(ws[0]);
    } else {
      TokensConcat(ws[0], Join(ws[1..]));
      TokensOfWord(ws[0]);
      TokensJoin(ws[1..]);
    }
  }

  /** The words of `a m b` with single spaces between the three parts. */
  lemma TokensAround(a: string, m: string, b: string)
    ensures Tokens(a + " " + m + " " + b) == Tokens(a) + Tokens(m) + Tokens(b)
  {
    TokensConcat(a + " " + m, b);
    TokensConcat(a, m);
  }

  /** Two words with a single space between them. */
  lemma TwoWords(a: string, b: string)
    requires IsWord(a) && IsWord(b)
    ensures Tokens(a + " " + b) == [a, b]
  {
    TokensConcat(a, b);
    TokensOfWord(a);
    TokensOfWord(b);
  }

  /** Three words with single spaces between them. */
  lemma ThreeWords(a: string, b: string, c: string)
    requires IsWord(a) && IsWord(b) && IsWord(c)
    ensures Tokens(a + " " + b + " " + c) == [a, b, c]
  {
    TokensAround(a, b, c);
    TokensOfWord(a);
    TokensOfWord(b);
    TokensOfWord(c);
  }

  /** Four words with single spaces between them. */
  lemma FourWords(a: string, b: string, c: string, d: string)
    requires IsWord(a) && IsWord(b) && IsWord(c) && IsWord(d)
    ensures Tokens(a + " " + b + " " + c + " " + d) == [a, b, c, d]
  {
    ThreeWords(a, b, c);
    TokensOfWord(d);
    TokensConcat(a + " " + b + " " + c, d);
  }

  // ---------------------------------------------------------------------
  // Integers as text
  // ---------------------------------------------------------------------

  predicate IsDigit(c: char) {
    '0' <= c <= '9'
  }

  predicate AllDigits(s: string) {
    forall i :: 0 <= i < |s| ==> IsDigit(s[i])
  }

  function DigitChar(d: nat): char
    requires d < 10
  {
    ('0' as int + d) as char
  }

  function DigitValue(c: char): nat
    requires IsDigit(c)
  {
    c as int - '0' as int
  }

  /** The decimal digits of `n`, without leading zeros. */
  function NatToString(n: nat): (s: string)
    ensures s != [] && AllDigits(s)
  {
    if n < 10 then [DigitChar(n)] else NatToString(n / 10) + [DigitChar(n % 10)]
  }

  /** How an f-string renders an `int`: a minus sign for negatives, then the digits. */
  function IntToString(i: int): string {
    if i < 0 then "-" + NatToString(-i) else NatToString(i)
  }

  /** The value of a string of decimal digits. */
  function DigitsValue(s: string): nat
    requires AllDigits(s)
  {
    if s == [] then 0 else DigitsValue(s[..|s| - 1]) * 10 + DigitValue(s[|s| - 1])
  }

  /**
   * Python's `int(s)` on a token: an optional sign followed by one or more
   * ASCII digits; anything else is a `ValueError`, modelled as `None`.
   */
  function ParseInt(s: string): (r: Option<int>)
    ensures r.Some? <==> s != [] && AllDigits(s[1..])
                         && (IsDigit(s[0]) || (|s| >= 2 && (s[0] == '-' || s[0] == '+')))
    ensures r.Some? && !IsDigit(s[0]) ==>
              r.value == (if s[0] == '-' then -(DigitsValue(s[1..]) as int)
                          else DigitsValue(s[1..]) as int)
    ensures ' ' in s ==> r.None?
    ensures s != [] && AllDigits(s) ==> r == Some(DigitsValue(s))
    ensures r.Some? && r.value < 0 ==> s[0] == '-'
  {
    if |s| >= 2 && (s[0] == '-' || s[0] == '+') && AllDigits(s[1..]) then
      var magnitude: int := DigitsValue(s[1..]);
      Some(if s[0] == '-' then -magnitude else magnitude)
    else if s != [] && AllDigits(s) then
      Some(DigitsValue(s))
    else
      None
  }

  function Abs(i: int): nat {
    if i < 0 then -i else i
  }

  lemma {:induction false} DigitsOfNat(n: nat)
    ensures DigitsValue(NatToString(n)) == n
  {
    if n >= 10 {
      var p := NatToString(n / 10);
      var s := p + [DigitChar(n % 10)];
      assert s[..|s| - 1] == p;
      DigitsOfNat(n / 10);
    }
  }

  /** A rendered integer is a word. */
  lemma IntToStringIsWord(i: int)
    ensures IsWord(IntToString(i))
  {
    var d := if i < 0 then -i else i;
    assert AllDigits(NatToString(d));
    assert forall c :: c in NatToString(d) ==> c != ' ';
  }

  /** Parsing a rendered integer gives the integer back. */
  lemma ParseIntToString(i: int)
    ensures ParseInt(IntToString(i)) == Some(i)
  {
    if i < 0 {
      var digits := NatToString(-i);
      var s := "-" + digits;
      assert s == IntToString(i);
      assert |s| >= 2 && s[0] == '-' && s[1..] == digits;
      DigitsOfNat(-i);
    } else {
      var s := NatToString(i);
      assert s == IntToString(i);
      assert IsDigit(s[0]);
      assert s[0] != '-' && s[0] != '+';
      DigitsOfNat(i);
    }
  }
}
