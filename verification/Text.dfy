/** The string functions the services call: trimming, lower-casing, splitting, joining, replacing, decimal text. */
module Text {
  import opened Options

  // ---------- strings.TrimSpace and strings.ToLower ----------

  /** unicode.IsSpace, the characters strings.TrimSpace removes. */
  predicate IsSpace(c: char) {
    || '\t' <= c <= '\r' || c == ' ' || c == '\U{85}' || c == '\U{A0}'
    || c == '\U{1680}' || '\U{2000}' <= c <= '\U{200A}' || c == '\U{2028}' || c == '\U{2029}'
    || c == '\U{202F}' || c == '\U{205F}' || c == '\U{3000}'
  }

  /** White space by code point. */
  lemma SpaceCodes(c: char)
    ensures IsSpace(c) <==>
              var n := c as int;
              || n in {9, 10, 11, 12, 13, 32, 0x85, 0xA0, 0x1680, 0x2028, 0x2029, 0x202F, 0x205F, 0x3000}
              || 0x2000 <= n <= 0x200A
  {
  }

  predicate Trimmed(s: string) {
    s != "" ==> !IsSpace(s[0]) && !IsSpace(s[|s| - 1])
  }

  function TrimLeft(s: string): (r: string)
    ensures r != "" ==> !IsSpace(r[0])
    ensures |r| <= |s| && r == s[|s| - |r|..]
  {
    if s == "" || !IsSpace(s[0]) then s else TrimLeft(s[1..])
  }

  function TrimRight(s: string): (r: string)
    ensures r <= s
    ensures r != "" ==> !IsSpace(r[|r| - 1])
  {
    if s == "" || !IsSpace(s[|s| - 1]) then s else TrimRight(s[..|s| - 1])
  }

  /** strings.TrimSpace: what is left neither starts nor ends with white space, and trimmed text is unchanged. */
  function Trim(s: string): (r: string)
    ensures Trimmed(r)
    ensures Trimmed(s) ==> r == s
  {
    TrimLeft(TrimRight(s))
  }

  predicate AllSpace(s: string) {
    forall c :: c in s ==> IsSpace(c)
  }

  lemma {:induction false} TrimLeftRemoves(s: string)
    ensures forall i :: 0 <= i < |s| - |TrimLeft(s)| ==> IsSpace(s[i])
  {
    if s != "" && IsSpace(s[0]) {
      TrimLeftRemoves(s[1..]);
      assert forall i :: 1 <= i < |s| ==> s[i] == s[1..][i - 1];
    }
  }

  lemma {:induction false} TrimRightRemoves(s: string)
    ensures forall i :: |TrimRight(s)| <= i < |s| ==> IsSpace(s[i])
  {
    if s != "" && IsSpace(s[|s| - 1]) {
      TrimRightRemoves(s[..|s| - 1]);
    }
  }

  lemma EndsAreSpace(s: string, left: string, t: string) returns (before: string, after: string)
    requires left <= s && |t| <= |left| && t == left[|left| - |t|..]
    requires forall i :: 0 <= i < |left| - |t| ==> IsSpace(left[i])
    requires forall i :: |left| <= i < |s| ==> IsSpace(s[i])
    ensures s == before + t + after && AllSpace(before) && AllSpace(after)
  {
    before, after := left[..|left| - |t|], s[|left|..];
    assert left == before + t && s == left + after;
  }

  /** Only white space is removed, at the two ends. */
  lemma TrimRemovesOnlySpace(s: string) returns (before: string, after: string)
    ensures s == before + Trim(s) + after && AllSpace(before) && AllSpace(after)
  {
    TrimRightRemoves(s);
    TrimLeftRemoves(TrimRight(s));
    before, after := EndsAreSpace(s, TrimRight(s), TrimLeft(TrimRight(s)));
  }

  lemma Margins(before: string, middle: string, after: string)
    requires AllSpace(before) && AllSpace(after)
    ensures var s, end := before + middle + after, |before| + |middle|;
            && (forall i :: 0 <= i < |before| || end <= i < |s| ==> IsSpace(s[i]))
            && (middle != "" ==> s[|before|] == middle[0] && s[end - 1] == middle[|middle| - 1])
  {
    var s := before + middle + after;
    forall i | 0 <= i < |before| || |before| + |middle| <= i < |s| ensures IsSpace(s[i]) {
      assert s[i] in before + after;
    }
  }

  /** And all of it: what lies between white space is the trimmed text as soon as it has none at its own ends. */
  lemma TrimIsUnique(before: string, middle: string, after: string)
    requires AllSpace(before) && AllSpace(after) && Trimmed(middle)
    ensures Trim(before + middle + after) == middle
  {
    var s := before + middle + after;
    var t := Trim(s);
    var b, a := TrimRemovesOnlySpace(s);
    Margins(before, middle, after);
    Margins(b, t, a);
    assert s == b + t + a;
    assert middle == "" <==> t == "";
    assert middle != "" ==> |b| == |before| && |t| == |middle|;
    assert middle == s[|before|..|before| + |middle|];
    assert t == s[|b|..|b| + |t|];
  }

  function LowerChar(c: char): char {
    if 'A' <= c <= 'Z' then c - 'A' + 'a' else c
  }

  /** The ASCII letters by code point: A to Z move up by 32, and everything else stays. */
  lemma LowerCodes(c: char)
    ensures LowerChar(c) as int == if 65 <= c as int <= 90 then c as int + 32 else c as int
  {
  }

  /** strings.ToLower with the case table `lower`. */
  function LowerBy(lower: char -> char, s: string): (r: string)
    ensures |r| == |s|
    ensures forall i :: 0 <= i < |s| ==> r[i] == lower(s[i])
  {
    if s == "" then "" else [lower(s[0])] + LowerBy(lower, s[1..])
  }

  /** strings.ToLower on the ASCII letters; every other character is kept. */
  function Lower(s: string): (r: string)
    ensures |r| == |s|
    ensures forall i :: 0 <= i < |s| ==> r[i] == LowerChar(s[i])
  {
    LowerBy(LowerChar, s)
  }

  /** Lower-casing and trimming an already normalised text changes nothing, for any case table whose lower-case letters
      are their own. */
  lemma NormaliseByIdempotent(lower: char -> char, s: string)
    requires forall c :: lower(lower(c)) == lower(c)
    ensures Trim(LowerBy(lower, Trim(LowerBy(lower, s)))) == Trim(LowerBy(lower, s))
  {
    var all := LowerBy(lower, s);
    var before, after := TrimRemovesOnlySpace(all);
    LowerByFixed(lower, s, before, Trim(all), after);
  }

  lemma LowerByFixed(lower: char -> char, s: string, before: string, t: string, after: string)
    requires forall c :: lower(lower(c)) == lower(c)
    requires LowerBy(lower, s) == before + t + after
    ensures LowerBy(lower, t) == t
  {
    forall i | 0 <= i < |t| ensures LowerBy(lower, t)[i] == t[i] {
      assert LowerBy(lower, s)[|before| + i] == t[i];
      var c := s[|before| + i];
      assert lower(c) == t[i];
    }
  }

  /** A text that lower-casing and trimming leave. */
  lemma NormalIsFixed(s: string)
    requires Trimmed(s) && forall i :: 0 <= i < |s| ==> LowerChar(s[i]) == s[i]
    ensures Trim(Lower(s)) == s
  {
    assert Lower(s) == s;
  }

  lemma NormaliseIdempotent(s: string)
    ensures Trim(Lower(Trim(Lower(s)))) == Trim(Lower(s))
  {
    NormaliseByIdempotent(LowerChar, s);
  }

  // ---------- strings.Split and strings.Join on a one-element separator ----------

  /** strings.Split: the pieces between the separators, at least one piece. */
  function Split<T(==)>(s: seq<T>, sep: T): (r: seq<seq<T>>)
    ensures |r| >= 1
    ensures forall i :: 0 <= i < |r| ==> sep !in r[i]
  {
    if s == [] then [[]]
    else
      var rest := Split(s[1..], sep);
      if s[0] == sep then [[]] + rest else [[s[0]] + rest[0]] + rest[1..]
  }

  /** strings.Join. */
  function Join<T>(parts: seq<seq<T>>, sep: T): seq<T> {
    if parts == [] then []
    else if |parts| == 1 then parts[0]
    else parts[0] + [sep] + Join(parts[1..], sep)
  }

  lemma JoinWithHead<T>(x: T, parts: seq<seq<T>>, sep: T)
    requires parts != []
    ensures Join([[x] + parts[0]] + parts[1..], sep) == [x] + Join(parts, sep)
  {
    var all := [[x] + parts[0]] + parts[1..];
    assert all[1..] == parts[1..];
    if |parts| > 1 {
      assert ([x] + parts[0]) + [sep] + Join(parts[1..], sep) == [x] + (parts[0] + [sep] + Join(parts[1..], sep));
    }
  }

  /** Joining the pieces of a split gives the text back. */
  lemma {:induction false} JoinSplit<T>(s: seq<T>, sep: T)
    ensures Join(Split(s, sep), sep) == s
  {
    if s != [] {
      JoinSplit(s[1..], sep);
      var rest := Split(s[1..], sep);
      if s[0] == sep {
        assert ([[]] + rest)[1..] == rest;
      } else {
        JoinWithHead(s[0], rest, sep);
      }
    }
  }

  /** The first piece, up to the first separator. */
  lemma {:induction false} SplitHead<T>(head: seq<T>, sep: T, rest: seq<T>)
    requires sep !in head
    ensures Split(head + [sep] + rest, sep) == [head] + Split(rest, sep)
  {
    var s := head + [sep] + rest;
    if head == [] {
      assert s[1..] == rest;
    } else {
      assert s[1..] == head[1..] + [sep] + rest;
      SplitHead(head[1..], sep, rest);
      var tail := Split(s[1..], sep);
      assert tail == [head[1..]] + Split(rest, sep);
      assert tail[1..] == Split(rest, sep);
      assert [s[0]] + tail[0] == head;
    }
  }

  /** A text without the separator is its own only piece. */
  lemma {:induction false} SplitWhole<T>(s: seq<T>, sep: T)
    requires sep !in s
    ensures Split(s, sep) == [s]
  {
    if s != [] {
      SplitWhole(s[1..], sep);
      assert [s[0]] + s[1..] == s;
    }
  }

  /** Splitting a join gives the pieces back when there is a piece and none holds the separator. */
  lemma {:induction false} SplitJoin<T>(parts: seq<seq<T>>, sep: T)
    requires |parts| >= 1
    requires forall i :: 0 <= i < |parts| ==> sep !in parts[i]
    ensures Split(Join(parts, sep), sep) == parts
  {
    if |parts| == 1 {
      SplitWhole(parts[0], sep);
    } else {
      SplitJoin(parts[1..], sep);
      SplitHead(parts[0], sep, Join(parts[1..], sep));
      assert [parts[0]] + parts[1..] == parts;
    }
  }

  /** Each separator adds the pieces on its two sides. */
  lemma {:induction false} SplitCount<T>(a: seq<T>, sep: T, b: seq<T>)
    ensures |Split(a + [sep] + b, sep)| == |Split(a, sep)| + |Split(b, sep)|
  {
    var s := a + [sep] + b;
    if a == [] {
      assert s[1..] == b;
    } else {
      assert s[1..] == a[1..] + [sep] + b;
      SplitCount(a[1..], sep, b);
    }
  }

  /** A joined text has at least as many pieces as were joined. */
  lemma {:induction false} SplitJoinCount<T>(parts: seq<seq<T>>, sep: T)
    ensures |Split(Join(parts, sep), sep)| >= |parts|
  {
    if |parts| > 1 {
      SplitJoinCount(parts[1..], sep);
      SplitCount(parts[0], sep, Join(parts[1..], sep));
    }
  }

  lemma {:induction false} SplitMore<T>(s: seq<T>, sep: T)
    requires sep in s
    ensures |Split(s, sep)| >= 2
  {
    if s[0] != sep {
      SplitMore(s[1..], sep);
    }
  }

  /** It has more, as soon as one of the parts holds the separator. */
  lemma {:induction false} SplitJoinMore<T>(parts: seq<seq<T>>, sep: T, i: nat)
    requires i < |parts| && sep in parts[i]
    ensures |Split(Join(parts, sep), sep)| > |parts|
  {
    if |parts| == 1 {
      SplitMore(parts[0], sep);
    } else {
      SplitCount(parts[0], sep, Join(parts[1..], sep));
      if i == 0 {
        SplitMore(parts[0], sep);
        SplitJoinCount(parts[1..], sep);
      } else {
        SplitJoinMore(parts[1..], sep, i - 1);
      }
    }
  }

  lemma {:induction false} JoinConcat<T>(a: seq<seq<T>>, b: seq<seq<T>>, sep: T)
    requires a != [] && b != []
    ensures Join(a + b, sep) == Join(a, sep) + [sep] + Join(b, sep)
  {
    assert (a + b)[1..] == a[1..] + b;
    if |a| > 1 {
      JoinConcat(a[1..], b, sep);
      calc {
        Join(a + b, sep);
        a[0] + [sep] + (Join(a[1..], sep) + [sep] + Join(b, sep));
        (a[0] + [sep] + Join(a[1..], sep)) + [sep] + Join(b, sep);
      }
    } else {
      assert a[1..] + b == b;
    }
  }

  // ---------- strings.ReplaceAll ----------

  /** strings.ReplaceAll for a non-empty pattern: leftmost matches, not overlapping. */
  function ReplaceAll<T(==)>(s: seq<T>, pattern: seq<T>, text: seq<T>): seq<T>
    requires pattern != []
  {
    if |s| < |pattern| then s
    else if pattern <= s then text + ReplaceAll(s[|pattern|..], pattern, text)
    else [s[0]] + ReplaceAll(s[1..], pattern, text)
  }

  /** Replacing a one-element pattern, one element at a time. */
  lemma ReplaceAllStep<T>(s: seq<T>, c: T, text: seq<T>)
    requires s != []
    ensures ReplaceAll(s, [c], text) == (if s[0] == c then text else [s[0]]) + ReplaceAll(s[1..], [c], text)
  {
    if s[0] == c {
      assert s[..1] == [c];
    } else {
      assert !([c] <= s);
    }
  }

  /** Replacing a one-element pattern works piece by piece. */
  lemma {:induction false} ReplaceAllConcat<T>(s: seq<T>, t: seq<T>, c: T, text: seq<T>)
    ensures ReplaceAll(s + t, [c], text) == ReplaceAll(s, [c], text) + ReplaceAll(t, [c], text)
  {
    if s == [] {
      assert s + t == t;
    } else {
      var first, rest := if s[0] == c then text else [s[0]], ReplaceAll(s[1..], [c], text);
      assert (s + t)[1..] == s[1..] + t;
      calc {
        ReplaceAll(s + t, [c], text);
        { ReplaceAllStep(s + t, c, text); }
        first + ReplaceAll(s[1..] + t, [c], text);
        { ReplaceAllConcat(s[1..], t, c, text); }
        first + (rest + ReplaceAll(t, [c], text));
        (first + rest) + ReplaceAll(t, [c], text);
        { ReplaceAllStep(s, c, text); }
        ReplaceAll(s, [c], text) + ReplaceAll(t, [c], text);
      }
    }
  }

  // ---------- strconv.Itoa, strconv.Atoi, %d ----------

  const INT64_LIMIT := 0x8000_0000_0000_0000

  function Digit(d: nat): char
    requires d < 10
  {
    '0' + d as char
  }

  predicate IsDigit(c: char) { '0' <= c <= '9' }

  /** The decimal digits of a natural number. */
  function Decimal(n: nat): (r: string)
    ensures |r| >= 1
    ensures forall i :: 0 <= i < |r| ==> IsDigit(r[i])
  {
    if n < 10 then [Digit(n)] else Decimal(n / 10) + [Digit(n % 10)]
  }

  /** strconv.Itoa. */
  function Itoa(n: int): (r: string)
    ensures '.' !in r
  {
    if n < 0 then "-" + Decimal(-n) else Decimal(n)
  }

  function ParseDigits(s: string): Option<nat> {
    if s == "" then None
    else if !IsDigit(s[|s| - 1]) then None
    else
      var d := (s[|s| - 1] - '0') as nat;
      if |s| == 1 then Some(d)
      else
        var n :- ParseDigits(s[..|s| - 1]);
        Some(10 * n + d)
  }

  /** strconv.Atoi: an optional sign, digits, and a value that fits in 64 bits. */
  function Atoi(s: string): Option<int> {
    var negative := s != "" && s[0] == '-';
    var n :- ParseDigits(if s != "" && (s[0] == '-' || s[0] == '+') then s[1..] else s);
    var v: int := if negative then -(n as int) else n;
    if -INT64_LIMIT <= v < INT64_LIMIT then Some(v) else None
  }

  /** Numbers are printed in base ten. */
  lemma DecimalSample()
    ensures Decimal(0) == "0" && Decimal(9) == "9" && Decimal(1907) == "1907" && Itoa(-64) == "-64"
  {
    assert Decimal(1) == "1" && Decimal(19) == "19" && Decimal(190) == "190" && Decimal(6) == "6";
  }

  /** Texts that are read as numbers are the non-empty texts of digits; a leading zero changes nothing, and one more
      digit at the end is worth ten times what was there and itself. */
  lemma {:induction false} DigitsAreRead(s: string)
    ensures ParseDigits(s).Some? <==> s != "" && forall i :: 0 <= i < |s| ==> IsDigit(s[i])
  {
    if s != "" && IsDigit(s[|s| - 1]) && |s| > 1 {
      DigitsAreRead(s[..|s| - 1]);
    }
  }

  lemma DigitIsWorth(s: string, d: nat)
    requires d < 10 && ParseDigits(s).Some?
    ensures ParseDigits(s + [Digit(d)]) == Some(10 * ParseDigits(s).value + d)
    ensures ParseDigits([Digit(d)]) == Some(d)
  {
    assert (s + [Digit(d)])[..|s|] == s;
  }

  lemma {:induction false} LeadingZeros(s: string)
    requires ParseDigits(s).Some?
    ensures ParseDigits("0" + s) == ParseDigits(s)
  {
    var z := "0" + s;
    if |s| == 1 {
      assert z[..1] == "0";
    } else {
      LeadingZeros(s[..|s| - 1]);
      assert z[..|z| - 1] == "0" + s[..|s| - 1];
    }
  }

  /** A text is a number exactly when, after at most one sign, it is digits whose value fits in 64 bits. */
  lemma AtoiExactly(s: string)
    ensures var digits := if s != "" && s[0] in {'-', '+'} then s[1..] else s;
            var v: int := if ParseDigits(digits).None? then 0
                          else if s != "" && s[0] == '-' then -(ParseDigits(digits).value as int)
                          else ParseDigits(digits).value;
            Atoi(s) == if ParseDigits(digits).Some? && -0x8000_0000_0000_0000 <= v <= 0x7FFF_FFFF_FFFF_FFFF
                       then Some(v) else None
  {
  }

  lemma {:induction false} ParseDecimal(n: nat)
    ensures ParseDigits(Decimal(n)) == Some(n)
  {
    if n >= 10 {
      ParseDecimal(n / 10);
      var s := Decimal(n);
      assert s[..|s| - 1] == Decimal(n / 10);
    }
  }

  /** Reading back a printed number, for every number a 64-bit int can hold. */
  lemma AtoiItoa(n: int)
    requires -INT64_LIMIT <= n < INT64_LIMIT
    ensures Atoi(Itoa(n)) == Some(n)
  {
    if n < 0 {
      AtoiNegative(-n);
      assert Itoa(n) == "-" + Decimal(-n);
    } else {
      AtoiNatural(n);
    }
  }

  lemma AtoiNatural(n: nat)
    requires n < INT64_LIMIT
    ensures Atoi(Decimal(n)) == Some(n)
  {
    ParseDecimal(n);
    assert IsDigit(Decimal(n)[0]);
  }

  lemma AtoiNegative(n: nat)
    requires 0 < n <= INT64_LIMIT
    ensures Atoi("-" + Decimal(n)) == Some(-(n as int))
  {
    ParseDecimal(n);
    assert ("-" + Decimal(n))[1..] == Decimal(n);
  }

  /** Different numbers print differently after a common prefix. */
  lemma NumberedNamesDiffer(prefix: string, m: nat, n: nat)
    requires prefix + Decimal(m) == prefix + Decimal(n)
    ensures m == n
  {
    assert Decimal(m) == (prefix + Decimal(m))[|prefix|..];
    assert Decimal(n) == (prefix + Decimal(n))[|prefix|..];
    ParseDecimal(m);
    ParseDecimal(n);
  }
}
