/**
  The encodings that digests are taken of
  (Sources/GreenBubblesSendKit/CanonicalEncoding.swift).

  Texts are sequences of characters. Only the character NUL has a zero byte in
  UTF-8, and UTF-8 is injective (module Utf8), so what is proved of characters
  holds of the bytes.
 */
module Canonical {
  import opened Wrappers

  const NUL := '\0'

  // ----- decimal numbers -----

  function Digit(d: nat): char
    requires d < 10
  {
    '0' + (d as char)
  }

  function Decimal(n: nat): (r: string)
    ensures r != []
  {
    if n < 10 then [Digit(n)] else Decimal(n / 10) + [Digit(n % 10)]
  }

  function Signed(n: int): string {
    if n < 0 then ['-'] + Decimal(-n) else Decimal(n)
  }

  predicate IsDigit(c: char) {
    '0' <= c <= '9'
  }

  lemma {:induction false} DecimalDigits(n: nat)
    ensures forall c :: c in Decimal(n) ==> IsDigit(c)
  {
    if n >= 10 {
      DecimalDigits(n / 10);
    }
  }

  /** The number that decimal digits denote. */
  ghost function ValueOf(s: string): int {
    if s == [] then 0 else ValueOf(s[..|s| - 1]) * 10 + (s[|s| - 1] as int - '0' as int)
  }

  /** Written are decimal digits that denote the number, without zeros in front. */
  lemma {:induction false} DecimalMeans(n: nat)
    ensures (forall c :: c in Decimal(n) ==> '0' <= c <= '9') && ValueOf(Decimal(n)) == n
    ensures Decimal(n)[0] == '0' <==> n == 0
  {
    DecimalDigits(n);
    if n >= 10 {
      DecimalMeans(n / 10);
      assert Decimal(n)[..|Decimal(n)| - 1] == Decimal(n / 10);
    }
  }

  lemma {:induction false} DecimalIsInjective(m: nat, n: nat)
    requires Decimal(m) == Decimal(n)
    ensures m == n
  {
    var a, b := Decimal(m), Decimal(n);
    assert a[|a| - 1] == Digit(m % 10) && b[|b| - 1] == Digit(n % 10);
    assert m % 10 == n % 10;
    if m >= 10 {
      LongDecimal(m);
    }
    if n >= 10 {
      LongDecimal(n);
    }
    if m >= 10 && n >= 10 {
      assert Decimal(m / 10) == a[..|a| - 1] == Decimal(n / 10);
      DecimalIsInjective(m / 10, n / 10);
    }
  }

  lemma LongDecimal(n: nat)
    requires n >= 10
    ensures |Decimal(n)| >= 2
  {
  }

  lemma SignedIsInjective(m: int, n: int)
    requires Signed(m) == Signed(n)
    ensures m == n
  {
    DecimalDigits(if m < 0 then -m else m);
    DecimalDigits(if n < 0 then -n else n);
    assert Signed(m)[0] == Signed(n)[0];
    if m < 0 {
      assert Signed(m)[1..] == Decimal(-m);
    }
    if n < 0 {
      assert Signed(n)[1..] == Decimal(-n);
    }
    if m < 0 && n < 0 {
      DecimalIsInjective(-m, -n);
    } else if m >= 0 && n >= 0 {
      DecimalIsInjective(m, n);
    } else {
      assert (if m < 0 then Signed(n)[0] else Signed(m)[0]) in (if m < 0 then Decimal(n) else Decimal(m));
    }
  }

  // ----- fields ended by NUL -----

  function Join(fields: seq<string>): string {
    if fields == [] then [] else fields[0] + [NUL] + Join(fields[1..])
  }

  predicate Clean(field: string) {
    NUL !in field
  }

  /** The text before the first NUL, and what follows it. */
  function Cut(s: string): (r: Option<(string, string)>)
    ensures r.Some? ==> |r.value.1| < |s|
  {
    if s == [] then None
    else if s[0] == NUL then Some(([], s[1..]))
    else
      match Cut(s[1..])
      case None => None
      case Some((head, rest)) => Some(([s[0]] + head, rest))
  }

  function Split(s: string): seq<string>
    decreases |s|
  {
    match Cut(s)
    case None => []
    case Some((head, rest)) => [head] + Split(rest)
  }

  lemma {:induction false} CutFindsField(field: string, rest: string)
    requires Clean(field)
    ensures Cut(field + [NUL] + rest) == Some((field, rest))
  {
    var s := field + [NUL] + rest;
    if field == [] {
      assert s[1..] == rest;
    } else {
      assert field[0] in field && forall c :: c in field[1..] ==> c in field;
      CutFindsField(field[1..], rest);
      assert s[1..] == field[1..] + [NUL] + rest;
      assert [field[0]] + field[1..] == field;
    }
  }

  /** Splitting at NUL recovers the fields. */
  lemma {:induction false} SplitRecovers(fields: seq<string>)
    requires forall f :: f in fields ==> Clean(f)
    ensures Split(Join(fields)) == fields
  {
    if fields != [] {
      assert fields[0] in fields && forall f :: f in fields[1..] ==> f in fields;
      SplitRecovers(fields[1..]);
      CutFindsField(fields[0], Join(fields[1..]));
    }
  }

  lemma {:induction false} JoinSnoc(fields: seq<string>, field: string)
    ensures Join(fields + [field]) == Join(fields) + field + ['\0']
  {
    if fields == [] {
      assert [field][1..] == [] && [] + [field] == [field];
    } else {
      JoinSnoc(fields[1..], field);
      assert (fields + [field])[1..] == fields[1..] + [field];
    }
  }

  class CanonicalWriter {
    var bytes: string
    var valid: bool

    /** Every field so far, rendered. */
    ghost var fields: seq<string>

    ghost predicate Valid()
      reads this
    {
      (valid <==> forall f :: f in fields ==> Clean(f)) && (valid ==> bytes == Join(fields))
    }

    constructor (domain: string)
      ensures Valid() && fields == [domain]
    {
      bytes, valid, fields := [], true, [];
      new;
      Text(domain);
      assert [] + [domain] == [domain];
    }

    method Text(value: string)
      requires Valid()
      modifies this
      ensures Valid() && fields == old(fields) + [value]
    {
      fields := fields + [value];
      JoinSnoc(old(fields), value);
      assert forall f :: f in fields <==> f in old(fields) || f == value;
      if NUL in value {
        valid := false;
        assert value in fields && !Clean(value);
        return;
      }
      bytes := bytes + value;
      bytes := bytes + [NUL];
    }

    method Number(value: nat)
      requires Valid()
      modifies this
      ensures Valid() && fields == old(fields) + [Decimal(value)]
    {
      fields := fields + [Decimal(value)];
      JoinSnoc(old(fields), Decimal(value));
      DecimalDigits(value);
      assert forall f :: f in fields <==> f in old(fields) || f == Decimal(value);
      bytes := bytes + Decimal(value);
      bytes := bytes + [NUL];
    }

    method Flag(value: bool)
      requires Valid()
      modifies this
      ensures Valid() && fields == old(fields) + [if value then "true" else "false"]
    {
      Text(if value then "true" else "false");
    }

    /** Nothing, for good, once a field held NUL; otherwise the fields, which splitting at NUL recovers. */
    method Finish() returns (r: Option<string>)
      requires Valid()
      ensures r.None? <==> exists f :: f in fields && !Clean(f)
      ensures r.Some? ==> r.value == Join(fields) && Split(r.value) == fields
    {
      if valid {
        SplitRecovers(fields);
        return Some(bytes);
      }
      return None;
    }
  }

  /** Equal encodings come from equal fields. */
  lemma EncodingIsInjective(a: seq<string>, b: seq<string>)
    requires (forall f :: f in a ==> Clean(f)) && (forall f :: f in b ==> Clean(f)) && Join(a) == Join(b)
    ensures a == b
  {
    SplitRecovers(a);
    SplitRecovers(b);
  }

  // ----- normalized text -----

  /** The runs of other characters between whitespace. */
  function Words(s: string, isSpace: char -> bool): seq<string> {
    if s == [] then []
    else
      var rest := Words(s[1..], isSpace);
      if isSpace(s[0]) then rest
      else if |s| > 1 && !isSpace(s[1]) && rest != [] then [[s[0]] + rest[0]] + rest[1..]
      else [[s[0]]] + rest
  }

  function Spaced(words: seq<string>): string {
    if words == [] then []
    else if |words| == 1 then words[0]
    else words[0] + " " + Spaced(words[1..])
  }

  function Normalized(s: string, isSpace: char -> bool): string {
    Spaced(Words(s, isSpace))
  }

  predicate AreWords(words: seq<string>, isSpace: char -> bool) {
    forall i :: 0 <= i < |words| ==> words[i] != [] && forall c :: c in words[i] ==> !isSpace(c)
  }

  lemma {:induction false} WordsAreWords(s: string, isSpace: char -> bool)
    ensures AreWords(Words(s, isSpace), isSpace)
    ensures s != [] && !isSpace(s[0]) ==> Words(s, isSpace) != []
  {
    if s != [] {
      WordsAreWords(s[1..], isSpace);
    }
  }

  lemma {:induction false} WordThenSpace(word: string, rest: string, isSpace: char -> bool)
    requires word != [] && (forall c :: c in word ==> !isSpace(c)) && (rest != [] ==> isSpace(rest[0]))
    ensures Words(word + rest, isSpace) == [word] + Words(rest, isSpace)
  {
    var s := word + rest;
    assert word[0] in word;
    if |word| == 1 {
      assert s[1..] == rest && word == [word[0]];
    } else {
      assert word[1] in word && forall c :: c in word[1..] ==> c in word;
      WordThenSpace(word[1..], rest, isSpace);
      assert s[1..] == word[1..] + rest;
      assert [word[0]] + word[1..] == word;
    }
  }

  /** Normalizing keeps the words. */
  lemma {:induction false} WordsOfSpaced(words: seq<string>, isSpace: char -> bool)
    requires isSpace(' ') && AreWords(words, isSpace)
    ensures Words(Spaced(words), isSpace) == words
  {
    if |words| == 1 {
      WordThenSpace(words[0], [], isSpace);
      assert words[0] + [] == words[0];
      assert words == [words[0]];
    } else if |words| > 1 {
      var rest := " " + Spaced(words[1..]);
      WordsOfSpaced(words[1..], isSpace);
      WordThenSpace(words[0], rest, isSpace);
      assert words[0] + " " + Spaced(words[1..]) == words[0] + rest;
      assert rest[1..] == Spaced(words[1..]);
    }
  }

  /** Texts match exactly when they have the same words, and normalizing twice changes nothing. */
  lemma NormalizedMatches(left: string, right: string, isSpace: char -> bool)
    requires isSpace(' ')
    ensures Normalized(left, isSpace) == Normalized(right, isSpace) <==> Words(left, isSpace) == Words(right, isSpace)
    ensures Normalized(Normalized(left, isSpace), isSpace) == Normalized(left, isSpace)
  {
    WordsAreWords(left, isSpace);
    WordsAreWords(right, isSpace);
    WordsOfSpaced(Words(left, isSpace), isSpace);
    WordsOfSpaced(Words(right, isSpace), isSpace);
  }
}
