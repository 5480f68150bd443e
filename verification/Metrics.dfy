/** Labelled counters and their text form. Texts are byte strings; counter values are real numbers. */
module Metrics {
  import opened Options
  import opened Text

  type byte = b: int | 0 <= b < 256
  type bytes = seq<byte>

  const SEPARATOR: byte := 0xFF
  const BACKSLASH: byte := 92
  const NEWLINE: byte := 10
  const QUOTE: byte := 34
  const LETTER_N: byte := 110
  const COMMA: byte := 44
  const EQUALS: byte := 61
  const OPEN_BRACE: byte := 123
  const CLOSE_BRACE: byte := 125
  const SPACE: byte := 32

  // ---------- label escaping ----------

  /** Three passes, one after the other. */
  function EscapeLabelValue(v: bytes): bytes {
    var v1 := ReplaceAll(v, [BACKSLASH], [BACKSLASH, BACKSLASH]);
    var v2 := ReplaceAll(v1, [NEWLINE], [BACKSLASH, LETTER_N]);
    ReplaceAll(v2, [QUOTE], [BACKSLASH, QUOTE])
  }

  function EscapedByte(b: byte): bytes {
    if b == BACKSLASH then [BACKSLASH, BACKSLASH]
    else if b == NEWLINE then [BACKSLASH, LETTER_N]
    else if b == QUOTE then [BACKSLASH, QUOTE]
    else [b]
  }

  /** Every byte replaced at once. */
  function EscapeAtOnce(v: bytes): bytes {
    if v == [] then [] else EscapedByte(v[0]) + EscapeAtOnce(v[1..])
  }

  lemma ReplaceInOne(b: byte, c: byte, text: bytes)
    ensures ReplaceAll([b], [c], text) == if b == c then text else [b]
  {
    ReplaceAllStep([b], c, text);
    assert [b][1..] == [];
    assert ReplaceAll([], [c], text) == [];
  }

  lemma ReplaceInTwo(a: byte, b: byte, c: byte, text: bytes)
    ensures ReplaceAll([a, b], [c], text) == (if a == c then text else [a]) + (if b == c then text else [b])
  {
    assert [a, b] == [a] + [b];
    ReplaceAllConcat([a], [b], c, text);
    ReplaceInOne(a, c, text);
    ReplaceInOne(b, c, text);
  }

  lemma EscapeOne(b: byte)
    ensures EscapeLabelValue([b]) == EscapedByte(b)
  {
    ReplaceInOne(b, BACKSLASH, [BACKSLASH, BACKSLASH]);
    if b == BACKSLASH {
      ReplaceInTwo(BACKSLASH, BACKSLASH, NEWLINE, [BACKSLASH, LETTER_N]);
      ReplaceInTwo(BACKSLASH, BACKSLASH, QUOTE, [BACKSLASH, QUOTE]);
    } else {
      ReplaceInOne(b, NEWLINE, [BACKSLASH, LETTER_N]);
      ReplaceInTwo(BACKSLASH, LETTER_N, QUOTE, [BACKSLASH, QUOTE]);
      ReplaceInOne(b, QUOTE, [BACKSLASH, QUOTE]);
    }
  }

  lemma EscapeConcat(v: bytes, w: bytes)
    ensures EscapeLabelValue(v + w) == EscapeLabelValue(v) + EscapeLabelValue(w)
  {
    ReplaceAllConcat(v, w, BACKSLASH, [BACKSLASH, BACKSLASH]);
    var v1 := ReplaceAll(v, [BACKSLASH], [BACKSLASH, BACKSLASH]);
    var w1 := ReplaceAll(w, [BACKSLASH], [BACKSLASH, BACKSLASH]);
    ReplaceAllConcat(v1, w1, NEWLINE, [BACKSLASH, LETTER_N]);
    ReplaceAllConcat(ReplaceAll(v1, [NEWLINE], [BACKSLASH, LETTER_N]), ReplaceAll(w1, [NEWLINE], [BACKSLASH, LETTER_N]),
                     QUOTE, [BACKSLASH, QUOTE]);
  }

  /** The three sequential passes are one simultaneous substitution. */
  lemma {:induction false} PassesActAtOnce(v: bytes)
    ensures EscapeLabelValue(v) == EscapeAtOnce(v)
  {
    if v != [] {
      assert v == [v[0]] + v[1..];
      EscapeConcat([v[0]], v[1..]);
      EscapeOne(v[0]);
      PassesActAtOnce(v[1..]);
    }
  }

  /** The three bytes that are escaped, and what for; every other byte stays. */
  lemma EscapesExactly(b: byte)
    ensures EscapeLabelValue([b]) ==
            if b == 0x5C then [0x5C, 0x5C] else if b == 0x0A then [0x5C, 0x6E]
            else if b == 0x22 then [0x5C, 0x22] else [b]
  {
    EscapeOne(b);
  }

  // ---------- reading a label value back ----------

  datatype Quoted = Quoted(value: bytes, rest: bytes)

  /** Reads up to the first quote that no backslash escapes. */
  function ReadQuoted(s: bytes): Option<Quoted>
    decreases |s|
  {
    if s == [] || s[0] == NEWLINE then None
    else if s[0] == QUOTE then Some(Quoted([], s[1..]))
    else if s[0] != BACKSLASH then Push(s[0], ReadQuoted(s[1..]))
    else if |s| == 1 then None
    else Push(if s[1] == LETTER_N then NEWLINE else s[1], ReadQuoted(s[2..]))
  }

  function Push(b: byte, q: Option<Quoted>): Option<Quoted> {
    var quoted :- q;
    Some(Quoted([b] + quoted.value, quoted.rest))
  }

  lemma ReadEscapedByte(b: byte, s: bytes)
    ensures ReadQuoted(EscapedByte(b) + s) == Push(b, ReadQuoted(s))
  {
    var t := EscapedByte(b) + s;
    assert t[|EscapedByte(b)|..] == s;
  }

  lemma {:induction false} ReadEscapedAtOnce(v: bytes, rest: bytes)
    ensures ReadQuoted(EscapeAtOnce(v) + [QUOTE] + rest) == Some(Quoted(v, rest))
  {
    if v == [] {
      assert [] + [QUOTE] + rest == [QUOTE] + rest;
    } else {
      ReadEscapedAtOnce(v[1..], rest);
      var tail := EscapeAtOnce(v[1..]) + [QUOTE] + rest;
      assert EscapeAtOnce(v) + [QUOTE] + rest == EscapedByte(v[0]) + tail;
      ReadEscapedByte(v[0], tail);
      assert [v[0]] + v[1..] == v;
    }
  }

  /** Escaping has a left inverse, also in the middle of a line: the reader finds the value and stops at its quote. */
  lemma ReadEscaped(v: bytes, rest: bytes)
    ensures ReadQuoted(EscapeLabelValue(v) + [QUOTE] + rest) == Some(Quoted(v, rest))
  {
    PassesActAtOnce(v);
    ReadEscapedAtOnce(v, rest);
  }

  // ---------- label tuples and counters ----------

  /** The key of a counter is its label values joined by 0xFF: they come back exactly when there is one and none holds
      that byte. */
  lemma KeyRoundTrip(values: seq<bytes>)
    ensures Split(Join(values, SEPARATOR), SEPARATOR) == values <==>
            values != [] && forall i :: 0 <= i < |values| ==> SEPARATOR !in values[i]
  {
    if values != [] && forall i :: 0 <= i < |values| ==> SEPARATOR !in values[i] {
      SplitJoin(values, SEPARATOR);
    }
  }

  ghost predicate Clean(values: seq<bytes>) {
    forall i :: 0 <= i < |values| ==> SEPARATOR !in values[i]
  }

  /** Another tuple of the same length counts on the same counter. */
  predicate SharesKey(v: seq<bytes>, w: seq<bytes>) {
    |w| == |v| && w != v && Join(w, SEPARATOR) == Join(v, SEPARATOR)
  }

  /** A key has as many pieces as its tuple had values exactly when none of them holds the byte 0xFF. */
  lemma PiecesExactlyWhenClean(v: seq<bytes>)
    requires v != []
    ensures |Split(Join(v, SEPARATOR), SEPARATOR)| == |v| <==> Clean(v)
  {
    if Clean(v) {
      SplitJoin(v, SEPARATOR);
    } else {
      var i: nat :| i < |v| && SEPARATOR in v[i];
      SplitJoinMore(v, SEPARATOR, i);
    }
  }

  lemma CleanIsAlone(v: seq<bytes>, w: seq<bytes>)
    requires Clean(v)
    ensures !SharesKey(v, w)
  {
    if |w| == |v| && v != [] && Join(w, SEPARATOR) == Join(v, SEPARATOR) {
      PiecesExactlyWhenClean(v);
      PiecesExactlyWhenClean(w);
      SplitJoin(v, SEPARATOR);
      SplitJoin(w, SEPARATOR);
    }
  }

  /** The pieces of a key with one of them or more joined again, at the end or at the start. */
  lemma Regrouped(p: seq<bytes>, n: nat) returns (atEnd: seq<bytes>, atStart: seq<bytes>)
    requires 2 <= n < |p|
    ensures |atEnd| == |atStart| == n && atEnd[0] == p[0] && SEPARATOR in atStart[0]
    ensures Join(atEnd, SEPARATOR) == Join(p, SEPARATOR) == Join(atStart, SEPARATOR)
  {
    var k := |p| - n + 1;
    atEnd, atStart := p[..n - 1] + [Join(p[n - 1..], SEPARATOR)], [Join(p[..k], SEPARATOR)] + p[k..];
    assert p == p[..n - 1] + p[n - 1..] == p[..k] + p[k..];
    JoinConcat(p[..n - 1], p[n - 1..], SEPARATOR);
    JoinConcat(p[..n - 1], [Join(p[n - 1..], SEPARATOR)], SEPARATOR);
    JoinConcat(p[..k], p[k..], SEPARATOR);
    JoinConcat([Join(p[..k], SEPARATOR)], p[k..], SEPARATOR);
    assert p[..k][0] + [SEPARATOR] <= atStart[0];
    assert (p[..k][0] + [SEPARATOR])[|p[0]|] == SEPARATOR;
  }

  lemma UncleanShares(v: seq<bytes>) returns (w: seq<bytes>)
    requires |v| >= 2 && !Clean(v)
    ensures SharesKey(v, w)
  {
    var p := Split(Join(v, SEPARATOR), SEPARATOR);
    JoinSplit(Join(v, SEPARATOR), SEPARATOR);
    PiecesExactlyWhenClean(v);
    SplitJoinCount(v, SEPARATOR);
    var atEnd, atStart := Regrouped(p, |v|);
    w := if atEnd != v then atEnd else atStart;
  }

  /** A tuple has its counter to itself exactly when it has at most one value or none of them holds the byte 0xFF. */
  lemma AloneExactlyWhenClean(v: seq<bytes>)
    ensures (forall w :: !SharesKey(v, w)) <==> |v| <= 1 || Clean(v)
  {
    if |v| <= 1 {
      forall w ensures !SharesKey(v, w) {
      }
    } else if Clean(v) {
      forall w ensures !SharesKey(v, w) {
        CleanIsAlone(v, w);
      }
    } else {
      var w := UncleanShares(v);
      assert SharesKey(v, w);
    }
  }

  /** Two different pairs that count together. */
  lemma UncleanTuplesShare()
    ensures Join([[1, 0xFF], [2]], SEPARATOR) == Join([[1], [0xFF, 2]], SEPARATOR)
  {
    assert [[1, 0xFF], [2]][1..] == [[2]];
    assert [[1], [0xFF, 2]][1..] == [[0xFF, 2]];
    assert Join([[1, 0xFF], [2]], SEPARATOR) == [1, 0xFF, 0xFF, 2];
  }

  function AddTo(values: map<bytes, real>, key: bytes, delta: real): map<bytes, real> {
    values[key := (if key in values then values[key] else 0.0) + delta]
  }

  datatype Addition = Addition(labels: seq<bytes>, delta: real)

  /** Counter.Add then CounterVec.add: negative amounts and tuples of the wrong length are ignored. */
  function Added(values: map<bytes, real>, arity: nat, a: Addition): map<bytes, real> {
    if a.delta < 0.0 || |a.labels| != arity then values else AddTo(values, Join(a.labels, SEPARATOR), a.delta)
  }

  function AllAdded(arity: nat, additions: seq<Addition>): map<bytes, real> {
    if additions == [] then map[]
    else Added(AllAdded(arity, additions[..|additions| - 1]), arity, additions[|additions| - 1])
  }

  /** What was added for exactly this tuple. */
  function Total(additions: seq<Addition>, labels: seq<bytes>): real {
    if additions == [] then 0.0
    else
      var a := additions[|additions| - 1];
      Total(additions[..|additions| - 1], labels) + if a.labels == labels && a.delta >= 0.0 then a.delta else 0.0
  }

  /** A clean tuple's counter holds exactly what was added for that tuple, whatever else is added; it exists exactly
      when something was. */
  lemma {:induction false} CountersAreSeparate(arity: nat, additions: seq<Addition>, labels: seq<bytes>)
    requires |labels| == arity && Clean(labels)
    ensures var values := AllAdded(arity, additions);
            var key := Join(labels, SEPARATOR);
            && (if key in values then values[key] else 0.0) == Total(additions, labels)
            && (key in values <==> exists i :: 0 <= i < |additions| && Adds(additions[i], labels))
  {
    if additions != [] {
      var n := |additions| - 1;
      CountersAreSeparate(arity, additions[..n], labels);
      CleanIsAlone(labels, additions[n].labels);
      assert forall i :: 0 <= i < n ==> additions[..n][i] == additions[i];
    }
  }

  predicate Adds(a: Addition, labels: seq<bytes>) {
    a.labels == labels && a.delta >= 0.0
  }

  /** After clean additions each key is made from one clean tuple, which splitting it gives back, and its value is what
      was added for that tuple. */
  lemma {:induction false} KeysAreTuples(arity: nat, additions: seq<Addition>, key: bytes)
    requires arity >= 1 && key in AllAdded(arity, additions)
    requires forall i :: 0 <= i < |additions| && |additions[i].labels| == arity ==> Clean(additions[i].labels)
    ensures var t := Split(key, SEPARATOR);
            |t| == arity && Clean(t) && Join(t, SEPARATOR) == key
              && AllAdded(arity, additions)[key] == Total(additions, t)
  {
    var n, t := |additions| - 1, Split(key, SEPARATOR);
    if key in AllAdded(arity, additions[..n]) {
      KeysAreTuples(arity, additions[..n], key);
    } else {
      SplitJoin(additions[n].labels, SEPARATOR);
    }
    CountersAreSeparate(arity, additions, t);
  }

  // ---------- the text form ----------

  /** What is printed before a value: a comma after the first, the label's name, an equals sign and a quote. */
  function LabelPrefix(names: seq<bytes>, i: nat): bytes
    requires i < |names|
  {
    (if i > 0 then [COMMA] else []) + names[i] + [EQUALS, QUOTE]
  }

  /** label="value" pairs from index i on. */
  function Labels(names: seq<bytes>, values: seq<bytes>, i: nat): bytes
    requires i <= |names| <= |values|
    decreases |names| - i
  {
    if i == |names| then []
    else LabelPrefix(names, i) + (EscapeLabelValue(values[i]) + [QUOTE] + Labels(names, values, i + 1))
  }

  /** One more label, piece by piece. */
  lemma LabelsNext(line: bytes, names: seq<bytes>, values: seq<bytes>, i: nat)
    requires i < |names| <= |values|
    ensures var comma := if i > 0 then line + [COMMA] else line;
            line + Labels(names, values, i)
            == comma + names[i] + [EQUALS, QUOTE] + EscapeLabelValue(values[i]) + [QUOTE] + Labels(names, values, i + 1)
  {
    var comma: bytes := if i > 0 then [COMMA] else [];
    var value, more := EscapeLabelValue(values[i]), Labels(names, values, i + 1);
    assert line + (comma + names[i] + [EQUALS, QUOTE] + (value + [QUOTE] + more))
        == line + comma + names[i] + [EQUALS, QUOTE] + value + [QUOTE] + more;
    assert line + [] == line;
  }

  function Line(name: bytes, names: seq<bytes>, values: seq<bytes>, number: bytes): bytes
    requires |names| <= |values|
  {
    name + [OPEN_BRACE] + Labels(names, values, 0) + [CLOSE_BRACE, SPACE] + number + [NEWLINE]
  }

  /** The marks between names and values, as bytes. */
  lemma PrefixExactly(names: seq<bytes>, i: nat)
    requires i < |names|
    ensures LabelPrefix(names, i) == (if i == 0 then [] else [0x2C]) + names[i] + [0x3D, 0x22]
  {
  }

  /** A line as text: x{a="v",b="w"} 1 and a newline, with each value escaped. */
  lemma LineExactly(name: bytes, names: seq<bytes>, values: seq<bytes>, number: bytes)
    requires |names| == 2 == |values|
    ensures Line(name, names, values, number)
            == name + [0x7B] + (names[0] + [0x3D, 0x22] + (EscapeLabelValue(values[0]) + [0x22]
               + ([0x2C] + names[1] + [0x3D, 0x22] + (EscapeLabelValue(values[1]) + [0x22]))))
               + [0x7D, 0x20] + number + [0x0A]
  {
    PrefixExactly(names, 0);
    PrefixExactly(names, 1);
    var second := EscapeLabelValue(values[1]) + [0x22];
    assert Labels(names, values, 2) == [];
    assert second + [] == second;
    assert Labels(names, values, 1) == [0x2C] + names[1] + [0x3D, 0x22] + second;
    assert [] + names[0] == names[0];
  }

  datatype Decoded = Decoded(values: seq<bytes>, rest: bytes)

  function After(s: bytes, prefix: bytes): Option<bytes> {
    if prefix <= s then Some(s[|prefix|..]) else None
  }

  /** Reads the label values from index i on, given the label names. */
  function DecodeLabels(s: bytes, names: seq<bytes>, i: nat): Option<Decoded>
    requires i <= |names|
    decreases |names| - i
  {
    if i == |names| then Some(Decoded([], s))
    else
      var quoted :- After(s, LabelPrefix(names, i));
      var q :- ReadQuoted(quoted);
      var d :- DecodeLabels(q.rest, names, i + 1);
      Some(Decoded([q.value] + d.values, d.rest))
  }

  /** One label read back, whatever follows its closing quote. */
  lemma LabelDecodes(prefix: bytes, value: bytes, tail: bytes)
    ensures var s := prefix + (EscapeLabelValue(value) + [QUOTE] + tail);
            After(s, prefix).Some? && ReadQuoted(After(s, prefix).value) == Some(Quoted(value, tail))
  {
    var s := prefix + (EscapeLabelValue(value) + [QUOTE] + tail);
    assert s[|prefix|..] == EscapeLabelValue(value) + [QUOTE] + tail;
    ReadEscaped(value, tail);
  }

  lemma Regroup(a: bytes, b: bytes, c: bytes, rest: bytes)
    ensures a + (b + [QUOTE] + c) + rest == a + (b + [QUOTE] + (c + rest))
  {
  }

  lemma {:induction false} LabelsDecode(names: seq<bytes>, values: seq<bytes>, i: nat, rest: bytes)
    requires i <= |names| <= |values|
    ensures DecodeLabels(Labels(names, values, i) + rest, names, i) == Some(Decoded(values[i..|names|], rest))
    decreases |names| - i
  {
    if i == |names| {
      assert Labels(names, values, i) + rest == rest;
    } else {
      var more := Labels(names, values, i + 1);
      Regroup(LabelPrefix(names, i), EscapeLabelValue(values[i]), more, rest);
      LabelDecodes(LabelPrefix(names, i), values[i], more + rest);
      LabelsDecode(names, values, i + 1, rest);
      assert [values[i]] + values[i + 1..|names|] == values[i..|names|];
    }
  }

  /** One printed counter. */
  datatype Sample = Sample(labels: seq<bytes>, number: bytes)

  predicate OneLine(number: bytes) {
    NEWLINE !in number
  }

  /** Reads up to the end of the line. */
  function ReadToNewline(s: bytes): Option<Quoted> {
    if s == [] then None
    else if s[0] == NEWLINE then Some(Quoted([], s[1..]))
    else Push(s[0], ReadToNewline(s[1..]))
  }

  lemma {:induction false} ReadsNumber(number: bytes, rest: bytes)
    requires OneLine(number)
    ensures ReadToNewline(number + [NEWLINE] + rest) == Some(Quoted(number, rest))
  {
    var s := number + [NEWLINE] + rest;
    if number == [] {
      assert s[1..] == rest;
    } else {
      assert s[1..] == number[1..] + [NEWLINE] + rest;
      ReadsNumber(number[1..], rest);
      assert [number[0]] + number[1..] == number;
    }
  }

  /** Reads one line: its label values, its number, and what follows it. */
  function DecodeLine(s: bytes, name: bytes, names: seq<bytes>): Option<(Sample, bytes)> {
    var labels :- After(s, name + [OPEN_BRACE]);
    var d :- DecodeLabels(labels, names, 0);
    var number :- After(d.rest, [CLOSE_BRACE, SPACE]);
    var q :- ReadToNewline(number);
    Some((Sample(d.values, q.value), q.rest))
  }

  /** A line decodes to the label values and the number it was printed for, whatever follows it: no label value can end
      the line early. */
  lemma LineDecodes(name: bytes, names: seq<bytes>, values: seq<bytes>, number: bytes, rest: bytes)
    requires |names| <= |values| && OneLine(number)
    ensures DecodeLine(Line(name, names, values, number) + rest, name, names)
            == Some((Sample(values[..|names|], number), rest))
  {
    var tail := number + [NEWLINE] + rest;
    var s := Line(name, names, values, number) + rest;
    assert s == (name + [OPEN_BRACE]) + (Labels(names, values, 0) + ([CLOSE_BRACE, SPACE] + tail));
    assert s[|name| + 1..] == Labels(names, values, 0) + ([CLOSE_BRACE, SPACE] + tail);
    LabelsDecode(names, values, 0, [CLOSE_BRACE, SPACE] + tail);
    assert ([CLOSE_BRACE, SPACE] + tail)[2..] == tail;
    ReadsNumber(number, rest);
    assert values[0..|names|] == values[..|names|];
  }

  /** A line printed for a tuple's counter decodes to that tuple exactly when no value of it holds the byte 0xFF. */
  lemma OwnLineDecodesExactly(name: bytes, names: seq<bytes>, values: seq<bytes>, number: bytes, rest: bytes)
    requires |names| == |values| >= 1 && OneLine(number)
    ensures var pieces := Split(Join(values, SEPARATOR), SEPARATOR);
            && |names| <= |pieces|
            && var decoded := DecodeLine(Line(name, names, pieces, number) + rest, name, names);
               decoded == Some((Sample(values, number), rest)) <==> Clean(values)
  {
    var pieces := Split(Join(values, SEPARATOR), SEPARATOR);
    SplitJoinCount(values, SEPARATOR);
    LineDecodes(name, names, pieces, number, rest);
    if Clean(values) {
      SplitJoin(values, SEPARATOR);
      assert pieces[..|names|] == values;
    } else {
      var i: nat :| i < |values| && SEPARATOR in values[i];
      assert pieces[..|names|][i] != values[i];
    }
  }

  /** One counter's line. */
  function KeyLine(name: bytes, names: seq<bytes>, values: map<bytes, real>, key: bytes, format: real -> bytes): bytes
    requires key in values && |names| <= |Split(key, SEPARATOR)|
  {
    Line(name, names, Split(key, SEPARATOR), format(values[key]))
  }

  function KeySample(names: seq<bytes>, values: map<bytes, real>, key: bytes, format: real -> bytes): Sample
    requires key in values && |names| <= |Split(key, SEPARATOR)|
  {
    Sample(Split(key, SEPARATOR)[..|names|], format(values[key]))
  }

  function Concat(pieces: seq<bytes>): bytes {
    if pieces == [] then [] else pieces[0] + Concat(pieces[1..])
  }

  lemma {:induction false} ConcatAppend(pieces: seq<bytes>, last: bytes)
    ensures Concat(pieces + [last]) == Concat(pieces) + last
  {
    if pieces == [] {
      assert [last][1..] == [];
      assert Concat([last]) == last + Concat([]);
      assert [] + [last] == [last];
    } else {
      assert (pieces + [last])[1..] == pieces[1..] + [last];
      ConcatAppend(pieces[1..], last);
    }
  }

  function LineSeq(name: bytes, names: seq<bytes>, values: map<bytes, real>, order: seq<bytes>, format: real -> bytes)
    : (r: seq<bytes>)
    requires forall k :: k in order ==> k in values && |names| <= |Split(k, SEPARATOR)|
    ensures |r| == |order|
    ensures forall i :: 0 <= i < |order| ==> order[i] in order && r[i] == KeyLine(name, names, values, order[i], format)
  {
    if order == [] then []
    else [KeyLine(name, names, values, order[0], format)] + LineSeq(name, names, values, order[1..], format)
  }

  /** The lines of the counters in the order given. */
  function Lines(name: bytes, names: seq<bytes>, values: map<bytes, real>, order: seq<bytes>, format: real -> bytes)
    : bytes
    requires forall k :: k in order ==> k in values && |names| <= |Split(k, SEPARATOR)|
  {
    Concat(LineSeq(name, names, values, order, format))
  }

  lemma LinesAppend(name: bytes, names: seq<bytes>, values: map<bytes, real>, order: seq<bytes>, key: bytes,
                    format: real -> bytes)
    requires forall k :: k in order + [key] ==> k in values && |names| <= |Split(k, SEPARATOR)|
    ensures Lines(name, names, values, order + [key], format)
            == Lines(name, names, values, order, format) + KeyLine(name, names, values, key, format)
  {
    var line := KeyLine(name, names, values, key, format);
    var lines, all := LineSeq(name, names, values, order, format), LineSeq(name, names, values, order + [key], format);
    forall i | 0 <= i < |order| + 1 ensures all[i] == (lines + [line])[i] {
      assert (order + [key])[i] == if i < |order| then order[i] else key;
    }
    assert all == lines + [line];
    ConcatAppend(lines, line);
  }

  /** What the lines are printed for: each key's own pieces, one for each label, and its value. */
  function Samples(names: seq<bytes>, values: map<bytes, real>, order: seq<bytes>, format: real -> bytes)
    : (r: seq<Sample>)
    requires forall k :: k in order ==> k in values && |names| <= |Split(k, SEPARATOR)|
    ensures |r| == |order|
    ensures forall i :: 0 <= i < |order| ==> order[i] in order && r[i] == KeySample(names, values, order[i], format)
  {
    if order == [] then []
    else [KeySample(names, values, order[0], format)] + Samples(names, values, order[1..], format)
  }

  /** Reads a text of lines. */
  function DecodeText(s: bytes, name: bytes, names: seq<bytes>): Option<seq<Sample>>
    decreases |s|
  {
    if s == [] then Some([])
    else
      var (sample, rest) :- DecodeLine(s, name, names);
      if |rest| >= |s| then None
      else
        var samples :- DecodeText(rest, name, names);
        Some([sample] + samples)
  }

  /** A line in front of a text that decodes. */
  lemma LineThenText(name: bytes, names: seq<bytes>, values: seq<bytes>, number: bytes, rest: bytes)
    requires |names| <= |values| && OneLine(number) && DecodeText(rest, name, names).Some?
    ensures DecodeText(Line(name, names, values, number) + rest, name, names)
            == Some([Sample(values[..|names|], number)] + DecodeText(rest, name, names).value)
  {
    LineDecodes(name, names, values, number, rest);
    assert |Line(name, names, values, number)| > 0;
  }

  /** The whole text decodes to every counter's own pieces and value, in order. */
  lemma {:induction false} TextDecodes(name: bytes, names: seq<bytes>, values: map<bytes, real>, order: seq<bytes>,
                                       format: real -> bytes)
    requires forall k :: k in order ==> k in values && |names| <= |Split(k, SEPARATOR)|
    requires forall x :: OneLine(format(x))
    ensures DecodeText(Lines(name, names, values, order, format), name, names)
            == Some(Samples(names, values, order, format))
  {
    if order != [] {
      TextDecodes(name, names, values, order[1..], format);
      var value := values[order[0]];
      var number := format(value);
      assert OneLine(number);
      LineThenText(name, names, Split(order[0], SEPARATOR), number, Lines(name, names, values, order[1..], format));
      var lines := LineSeq(name, names, values, order, format);
      assert lines[1..] == LineSeq(name, names, values, order[1..], format);
    }
  }

  lemma LinesNext(head: bytes, name: bytes, names: seq<bytes>, values: map<bytes, real>, order: seq<bytes>, n: nat,
                  format: real -> bytes)
    requires n < |order| && forall k :: k in order ==> k in values && |names| <= |Split(k, SEPARATOR)|
    ensures head + Lines(name, names, values, order[..n + 1], format)
            == head + Lines(name, names, values, order[..n], format) + KeyLine(name, names, values, order[n], format)
  {
    assert order[..n + 1] == order[..n] + [order[n]];
    LinesAppend(name, names, values, order[..n], order[n], format);
  }

  lemma AfterHeadDecodes(head: bytes, name: bytes, names: seq<bytes>, values: map<bytes, real>, order: seq<bytes>,
                         format: real -> bytes)
    requires forall k :: k in order ==> k in values && |names| <= |Split(k, SEPARATOR)|
    ensures var text := head + Lines(name, names, values, order, format);
            (forall x :: OneLine(format(x))) ==>
              DecodeText(text[|head|..], name, names) == Some(Samples(names, values, order, format))
  {
    var lines := Lines(name, names, values, order, format);
    assert (head + lines)[|head|..] == lines;
    if forall x :: OneLine(format(x)) {
      TextDecodes(name, names, values, order, format);
    }
  }

  /** From additions to the text and back: after clean additions the printed lines decode to one sample for each key,
      each a clean tuple of the right length with the amount added for it, and every tuple added to is among them. */
  lemma PrintedCountersDecode(name: bytes, names: seq<bytes>, additions: seq<Addition>, order: seq<bytes>,
                              format: real -> bytes) returns (samples: seq<Sample>)
    requires names != []
    requires forall i :: 0 <= i < |additions| && |additions[i].labels| == |names| ==> Clean(additions[i].labels)
    requires forall k :: k in order <==> k in AllAdded(|names|, additions)
    requires forall x :: OneLine(format(x))
    ensures forall k :: k in order ==> |Split(k, SEPARATOR)| == |names|
    ensures DecodeText(Lines(name, names, AllAdded(|names|, additions), order, format), name, names) == Some(samples)
    ensures |samples| == |order|
    ensures forall i :: 0 <= i < |samples| ==>
              var t := samples[i].labels;
              && |t| == |names| && Clean(t) && Join(t, SEPARATOR) == order[i]
              && samples[i].number == format(Total(additions, t))
    ensures forall a | a in additions && |a.labels| == |names| && a.delta >= 0.0 ::
              exists i :: 0 <= i < |samples| && samples[i].labels == a.labels
  {
    var values := AllAdded(|names|, additions);
    forall k | k in order
      ensures var t := Split(k, SEPARATOR);
              |t| == |names| && Clean(t) && Join(t, SEPARATOR) == k && values[k] == Total(additions, t)
    {
      KeysAreTuples(|names|, additions, k);
    }
    TextDecodes(name, names, values, order, format);
    samples := Samples(names, values, order, format);
    forall i | 0 <= i < |order|
      ensures var t := samples[i].labels;
              && |t| == |names| && Clean(t) && Join(t, SEPARATOR) == order[i]
              && samples[i].number == format(Total(additions, t))
    {
      assert order[i] in order && samples[i] == KeySample(names, values, order[i], format);
      SampleOfKey(names, additions, order[i], format);
    }
    forall a | a in additions && |a.labels| == |names| && a.delta >= 0.0
      ensures exists i :: 0 <= i < |samples| && samples[i].labels == a.labels
    {
      AddedIsPrinted(names, additions, order, a);
      var i :| 0 <= i < |order| && order[i] == Join(a.labels, SEPARATOR);
      CleanTuplesAgree(samples[i].labels, a.labels);
    }
  }

  lemma SampleOfKey(names: seq<bytes>, additions: seq<Addition>, key: bytes, format: real -> bytes)
    requires names != [] && key in AllAdded(|names|, additions)
    requires forall i :: 0 <= i < |additions| && |additions[i].labels| == |names| ==> Clean(additions[i].labels)
    ensures |Split(key, SEPARATOR)| == |names|
    ensures var sample := KeySample(names, AllAdded(|names|, additions), key, format);
            && sample.labels == Split(key, SEPARATOR) && Clean(sample.labels)
            && Join(sample.labels, SEPARATOR) == key && sample.number == format(Total(additions, sample.labels))
  {
    KeysAreTuples(|names|, additions, key);
    assert Split(key, SEPARATOR)[..|names|] == Split(key, SEPARATOR);
  }

  lemma CleanTuplesAgree(v: seq<bytes>, w: seq<bytes>)
    requires |v| == |w| && Clean(v) && Join(v, SEPARATOR) == Join(w, SEPARATOR)
    ensures v == w
  {
    CleanIsAlone(v, w);
  }

  lemma AddedIsPrinted(names: seq<bytes>, additions: seq<Addition>, order: seq<bytes>, a: Addition)
    requires a in additions && |a.labels| == |names| && a.delta >= 0.0 && Clean(a.labels)
    requires forall k :: k in order <==> k in AllAdded(|names|, additions)
    ensures exists i :: 0 <= i < |order| && order[i] == Join(a.labels, SEPARATOR)
  {
    CountersAreSeparate(|names|, additions, a.labels);
    var i :| 0 <= i < |additions| && additions[i] == a;
    assert Adds(additions[i], a.labels);
    assert Join(a.labels, SEPARATOR) in order;
  }

  class CounterVec {
    const name: bytes
    const labelNames: seq<bytes>
    var values: map<bytes, real>

    /** Every key was joined from one value per label. */
    ghost predicate Valid()
      reads this
    {
      forall k :: k in values ==> |labelNames| <= |Split(k, SEPARATOR)|
    }

    constructor (name: bytes, labelNames: seq<bytes>)
      ensures Valid() && this.name == name && this.labelNames == labelNames
      ensures values == AllAdded(|labelNames|, [])
    {
      this.name, this.labelNames, values := name, labelNames, map[];
    }

    method Add(labelValues: seq<bytes>, delta: real)
      requires Valid()
      modifies this
      ensures Valid() && values == Added(old(values), |labelNames|, Addition(labelValues, delta))
      ensures delta < 0.0 || |labelValues| != |labelNames| ==> values == old(values)
      ensures delta >= 0.0 && |labelValues| == |labelNames| ==>
                var key := Join(labelValues, 0xFF);
                && key in values && values[key] == (if key in old(values) then old(values)[key] else 0.0) + delta
                && values.Keys == old(values).Keys + {key}
                && forall k :: k in old(values) && k != key ==> values[k] == old(values)[k]
    {
      if delta < 0.0 {
        return;
      }
      if |labelValues| != |labelNames| {
        return;
      }
      var key := Join(labelValues, SEPARATOR);
      SplitJoinCount(labelValues, SEPARATOR);
      values := values[key := (if key in values then values[key] else 0.0) + delta];
    }

    /** One counter's line, label by label. */
    method WriteLine(labelValues: seq<bytes>, number: bytes) returns (line: bytes)
      requires |labelNames| <= |labelValues|
      ensures line == Line(name, labelNames, labelValues, number)
    {
      line := name + [OPEN_BRACE];
      var idx := 0;
      while idx < |labelNames|
        invariant 0 <= idx <= |labelNames|
        invariant line + Labels(labelNames, labelValues, idx)
          == name + [OPEN_BRACE] + Labels(labelNames, labelValues, 0)
      {
        LabelsNext(line, labelNames, labelValues, idx);
        if idx > 0 {
          line := line + [COMMA];
        }
        line := line + labelNames[idx] + [EQUALS, QUOTE];
        line := line + EscapeLabelValue(labelValues[idx]) + [QUOTE];
        idx := idx + 1;
      }
      assert line == line + Labels(labelNames, labelValues, idx);
      line := line + [CLOSE_BRACE, SPACE] + number + [NEWLINE];
    }

    /** The counters' lines under the head, in ascending order of their keys; `format` is FormatFloat. */
    method WritePrometheus(head: bytes, format: real -> bytes) returns (text: bytes, order: seq<bytes>)
      requires Valid()
      ensures Ascending(order) && forall k :: k in order <==> k in values
      ensures text == head + Lines(name, labelNames, values, order, format)
      ensures (forall x :: OneLine(format(x))) ==>
                DecodeText(text[|head|..], name, labelNames) == Some(Samples(labelNames, values, order, format))
    {
      order := SortKeys(values.Keys);
      text := head;
      assert order[..0] == [];
      var n := 0;
      while n < |order|
        invariant 0 <= n <= |order|
        invariant text == head + Lines(name, labelNames, values, order[..n], format)
      {
        var key := order[n];
        assert key in order;
        var line := WriteLine(Split(key, SEPARATOR), format(values[key]));
        LinesNext(head, name, labelNames, values, order, n, format);
        text := text + line;
        n := n + 1;
      }
      assert order[..|order|] == order;
      AfterHeadDecodes(head, name, labelNames, values, order, format);
    }
  }

  // ---------- the order of the keys ----------

  /** Go's comparison of strings, byte by byte: `a < b`. */
  predicate Below(a: bytes, b: bytes) {
    if b == [] then false
    else if a == [] then true
    else if a[0] != b[0] then a[0] < b[0]
    else Below(a[1..], b[1..])
  }

  /** Two texts compare at the first byte where they differ; a text comes before any it starts. */
  lemma {:induction false} BelowExactly(a: bytes, b: bytes)
    ensures Below(a, b) <==>
              exists i: nat :: DiffersAt(a, b, i)
  {
    if a != [] && b != [] && a[0] == b[0] {
      BelowExactly(a[1..], b[1..]);
      FirstDifferenceShifts(a, b);
    } else if b != [] {
      assert Below(a, b) ==> DiffersAt(a, b, 0);
      forall i: nat | DiffersAt(a, b, i) ensures i == 0 {
        if i > 0 {
          FirstBytesAgree(a, b, i);
          assert false;
        }
      }
    }
  }

  lemma FirstBytesAgree(a: bytes, b: bytes, i: nat)
    requires i > 0 && DiffersAt(a, b, i)
    ensures a != [] && b != [] && a[0] == b[0]
  {
    assert a[..i][0] == b[..i][0];
  }

  predicate DiffersAt(a: bytes, b: bytes, i: nat) {
    i <= |a| && i < |b| && a[..i] == b[..i] && (i == |a| || a[i] < b[i])
  }

  lemma FirstDifferenceShifts(a: bytes, b: bytes)
    requires a != [] && b != [] && a[0] == b[0]
    ensures (exists i: nat :: DiffersAt(a, b, i)) <==> exists i: nat :: DiffersAt(a[1..], b[1..], i)
  {
    if i: nat :| DiffersAt(a, b, i) {
      assert i > 0;
      assert a[1..][..i - 1] == a[..i][1..] && b[1..][..i - 1] == b[..i][1..];
      assert DiffersAt(a[1..], b[1..], i - 1);
    }
    if i: nat :| DiffersAt(a[1..], b[1..], i) {
      assert a[..i + 1] == [a[0]] + a[1..][..i] && b[..i + 1] == [b[0]] + b[1..][..i];
      assert DiffersAt(a, b, i + 1);
    }
  }

  ghost predicate Ascending(order: seq<bytes>) {
    forall i, j :: 0 <= i < j < |order| ==> Below(order[i], order[j])
  }

  lemma {:induction false} BelowTotal(a: bytes, b: bytes)
    ensures Below(a, b) || a == b || Below(b, a)
  {
    if a != [] && b != [] && a[0] == b[0] {
      BelowTotal(a[1..], b[1..]);
      assert a == [a[0]] + a[1..] && b == [b[0]] + b[1..];
    }
  }

  lemma {:induction false} BelowTransitive(a: bytes, b: bytes, c: bytes)
    requires Below(a, b) && Below(b, c)
    ensures Below(a, c)
  {
    if a != [] && a[0] == b[0] == c[0] {
      BelowTransitive(a[1..], b[1..], c[1..]);
    }
  }

  lemma {:induction false} BelowIrreflexive(a: bytes)
    ensures !Below(a, a)
  {
    if a != [] {
      BelowIrreflexive(a[1..]);
    }
  }

  /** So a set of keys has only one ascending order: what is printed does not depend on how it was found. */
  lemma {:induction false} AscendingIsUnique(a: seq<bytes>, b: seq<bytes>)
    requires Ascending(a) && Ascending(b) && forall k :: k in a <==> k in b
    ensures a == b
  {
    assert a == [] || a[0] in a;
    assert b == [] || b[0] in b;
    if a != [] {
      SameFirst(a, b);
      forall k ensures k in a[1..] <==> k in b[1..] {
        InRest(a, k);
        InRest(b, k);
      }
      AscendingIsUnique(a[1..], b[1..]);
      assert a == [a[0]] + a[1..] && b == [b[0]] + b[1..];
    }
  }

  lemma SameFirst(a: seq<bytes>, b: seq<bytes>)
    requires a != [] && b != [] && Ascending(a) && Ascending(b) && forall k :: k in a <==> k in b
    ensures a[0] == b[0]
  {
    assert a[0] in b && b[0] in a;
    var i: nat :| i < |b| && b[i] == a[0];
    var j: nat :| j < |a| && a[j] == b[0];
    if i > 0 && j > 0 {
      BelowTransitive(a[0], b[0], a[0]);
      BelowIrreflexive(a[0]);
    }
  }

  lemma InRest(order: seq<bytes>, k: bytes)
    requires order != [] && Ascending(order)
    ensures k in order[1..] <==> k in order && k != order[0]
  {
    BelowIrreflexive(order[0]);
  }

  /** sort.Slice on the keys. */
  method SortKeys(keys: set<bytes>) returns (order: seq<bytes>)
    ensures Ascending(order) && forall k :: k in order <==> k in keys
  {
    order := [];
    var left := keys;
    while left != {}
      invariant left <= keys && Ascending(order)
      invariant forall k :: k in keys <==> k in order || k in left
      invariant forall i, k | 0 <= i < |order| && k in left :: Below(order[i], k)
      decreases left
    {
      var least := Least(left);
      BelowIrreflexive(least);
      order := order + [least];
      left := left - {least};
    }
  }

  method Least(keys: set<bytes>) returns (least: bytes)
    requires keys != {}
    ensures least in keys && forall k :: k in keys && k != least ==> Below(least, k)
  {
    least :| least in keys;
    var left := keys - {least};
    while left != {}
      invariant least in keys && left <= keys && least !in left
      invariant forall k :: k in keys ==> k in left || k == least || Below(least, k)
      decreases left
    {
      var key :| key in left;
      left := left - {key};
      BelowTotal(least, key);
      if Below(key, least) {
        forall k | k in keys && Below(least, k) ensures Below(key, k) {
          BelowTransitive(key, least, k);
        }
        least := key;
      }
    }
  }
}
