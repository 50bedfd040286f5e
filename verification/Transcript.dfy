/**
 The interaction transcript written by the runpipe proxy. Bytes are represented as characters;
 payloads are arbitrary. Times are the whole seconds and milliseconds since the start.
 */
module Transcript {
  import opened Numbers
  import opened Wrappers

  /** A stretch of data, or the end of a stream; `from` is 0 for the main process, 1 for the other. */
  datatype Record =
    | Data(sec: nat, millis: nat, from: nat, payload: string)
    | Eof(sec: nat, millis: nat, from: nat)

  /** What the proxy produces: data records are never empty. */
  predicate Writable(r: Record) {
    r.millis < 1000 && r.from < 2 && (r.Data? ==> r.payload != "")
  }

  // ----- writing

  function Spaces(n: int): string {
    if n <= 0 then "" else " " + Spaces(n - 1)
  }

  /** printf "%3d" */
  function PadTo3(n: nat): string {
    Spaces(3 - |Digits(n)|) + Digits(n)
  }

  /** printf "%03d" of a number below 1000 */
  function Zero3(n: nat): string
    requires n < 1000
  {
    [DigitChar(n / 100), DigitChar(n / 10 % 10), DigitChar(n % 10)]
  }

  function Time(sec: nat, millis: nat): string
    requires millis < 1000
  {
    "[" + PadTo3(sec) + "." + Zero3(millis) + "s/"
  }

  /** The part that both kinds of record share: time and number of bytes. */
  function Stamp(sec: nat, millis: nat, bytes: nat): string
    requires millis < 1000
  {
    Time(sec, millis) + Digits(bytes) + "]"
  }

  function Header(sec: nat, millis: nat, bytes: nat, from: nat): string
    requires millis < 1000
  {
    Stamp(sec, millis, bytes) + Direction(from)
  }

  function Direction(from: nat): string {
    [if from == 0 then '>' else '<', ':', ' ']
  }

  function EofMark(from: nat): string {
    [if from == 0 then ']' else '[']
  }

  function Encode(r: Record): string
    requires Writable(r)
  {
    match r
    case Data(sec, millis, from, payload) => Header(sec, millis, |payload|, from) + (payload + "\n")
    case Eof(sec, millis, from) => Stamp(sec, millis, 0) + EofMark(from)
  }

  lemma TimeLooksLike()
    ensures Time(7, 5) == "[  7.005s/" && Time(7, 120) == "[  7.120s/"
  {
    assert Digits(7) == "7";
    assert Spaces(0) == "" && Spaces(1) == " " && Spaces(2) == "  ";
    assert PadTo3(7) == "  7";
    assert Zero3(5) == "005" && Zero3(120) == "120";
  }

  /** Wider numbers of seconds take their room. */
  lemma SecondsLookLike()
    ensures PadTo3(42) == " 42" && PadTo3(600) == "600" && PadTo3(3600) == "3600"
  {
    assert Digits(4) == "4" && Digits(42) == "42";
    assert Digits(6) == "6" && Digits(60) == "60" && Digits(600) == "600";
    assert Digits(3) == "3" && Digits(36) == "36" && Digits(360) == "360" && Digits(3600) == "3600";
    assert Spaces(0) == "" && Spaces(1) == " ";
  }

  /** A data record: `>` and `<` are the directions of the main process and the other one. */
  lemma DataLooksLike()
    ensures Encode(Data(7, 5, 0, "ab")) == "[  7.005s/2]>: ab\n"
    ensures Encode(Data(7, 120, 1, "x")) == "[  7.120s/1]<: x\n"
  {
    TimeLooksLike();
    assert Digits(2) == "2" && Digits(1) == "1";
    assert Stamp(7, 5, 2) == "[  7.005s/2]" && Stamp(7, 120, 1) == "[  7.120s/1]";
  }

  /** An end-of-file record. */
  lemma EofLooksLike()
    ensures Encode(Eof(7, 5, 0)) == "[  7.005s/0]]" && Encode(Eof(7, 5, 1)) == "[  7.005s/0]["
  {
    TimeLooksLike();
    assert Digits(0) == "0";
    assert Stamp(7, 5, 0) == "[  7.005s/0]";
  }

  function Concat(parts: seq<string>): string {
    if parts == [] then "" else parts[0] + Concat(parts[1..])
  }

  function Encodings(rs: seq<Record>): (parts: seq<string>)
    requires forall r :: r in rs ==> Writable(r)
    ensures |parts| == |rs|
  {
    if rs == [] then [] else [Encode(rs[0])] + Encodings(rs[1..])
  }

  function EncodeAll(rs: seq<Record>): string
    requires forall r :: r in rs ==> Writable(r)
  {
    Concat(Encodings(rs))
  }

  lemma {:induction false} ConcatAppend(parts: seq<string>, part: string)
    ensures Concat(parts + [part]) == Concat(parts) + part
  {
    if parts == [] {
      assert [] + [part] == [part] && [part][1..] == [];
      assert Concat([part]) == part + Concat([]);
    } else {
      ConcatAppend(parts[1..], part);
      assert (parts + [part])[1..] == parts[1..] + [part];
      assert parts[0] + (Concat(parts[1..]) + part) == (parts[0] + Concat(parts[1..])) + part;
    }
  }

  lemma EncodingsCons(r: Record, rs: seq<Record>)
    requires Writable(r) && forall x :: x in rs ==> Writable(x)
    ensures (forall x :: x in [r] + rs ==> Writable(x)) && Encodings([r] + rs) == [Encode(r)] + Encodings(rs)
  {
    assert ([r] + rs)[1..] == rs;
  }

  lemma {:induction false} EncodingsAppend(rs: seq<Record>, r: Record)
    requires Writable(r) && forall x :: x in rs ==> Writable(x)
    ensures (forall x :: x in rs + [r] ==> Writable(x)) && Encodings(rs + [r]) == Encodings(rs) + [Encode(r)]
  {
    if rs == [] {
      assert rs + [r] == [r] + [];
      EncodingsCons(r, []);
    } else {
      EncodingsAppend(rs[1..], r);
      assert rs + [r] == [rs[0]] + (rs[1..] + [r]);
      EncodingsCons(rs[0], rs[1..] + [r]);
    }
  }

  lemma EncodeAllAppend(rs: seq<Record>, r: Record)
    requires Writable(r) && forall x :: x in rs ==> Writable(x)
    ensures (forall x :: x in rs + [r] ==> Writable(x)) && EncodeAll(rs + [r]) == EncodeAll(rs) + Encode(r)
  {
    EncodingsAppend(rs, r);
    ConcatAppend(Encodings(rs), Encode(r));
  }

  // ----- reading

  predicate IsDigit(c: char) {
    '0' <= c <= '9'
  }

  function DigitRun(s: string): (n: nat)
    ensures n <= |s|
  {
    if s != "" && IsDigit(s[0]) then 1 + DigitRun(s[1..]) else 0
  }

  function Value(ds: string): nat {
    if ds == "" || !IsDigit(ds[|ds| - 1]) then 0
    else 10 * Value(ds[..|ds| - 1]) + (ds[|ds| - 1] as int - '0' as int)
  }

  function SkipSpaces(s: string): (r: string)
    ensures |r| <= |s|
  {
    if s != "" && s[0] == ' ' then SkipSpaces(s[1..]) else s
  }

  /** A number and what follows it. */
  function ReadNumber(s: string): (r: Option<(nat, string)>)
    ensures r.Some? ==> |r.value.1| < |s|
  {
    var k := DigitRun(s);
    if k == 0 then None else Some((Value(s[..k]), s[k..]))
  }

  function Expect(s: string, lit: string): (r: Option<string>)
    ensures r.Some? ==> |r.value| <= |s|
  {
    if lit <= s then Some(s[|lit|..]) else None
  }

  datatype StampRead = StampRead(sec: nat, millis: nat, bytes: nat, rest: string)

  function ReadTime(s: string): (r: Option<(nat, nat, string)>)
    ensures r.Some? ==> |r.value.2| < |s|
  {
    match Expect(s, "[") case None => None case Some(s1) =>
    match ReadNumber(SkipSpaces(s1)) case None => None case Some((sec, s2)) =>
    match Expect(s2, ".") case None => None case Some(s3) =>
    match ReadNumber(s3) case None => None case Some((millis, s4)) =>
    match Expect(s4, "s/") case None => None case Some(s5) =>
    Some((sec, millis, s5))
  }

  function ReadStamp(s: string): (r: Option<StampRead>)
    ensures r.Some? ==> |r.value.rest| < |s|
  {
    match ReadTime(s) case None => None case Some((sec, millis, s5)) =>
    match ReadNumber(s5) case None => None case Some((bytes, s6)) =>
    match Expect(s6, "]") case None => None case Some(s7) =>
    Some(StampRead(sec, millis, bytes, s7))
  }

  /** What follows the stamp: a direction, and for data the payload, which is skipped by its length. */
  function ReadBody(st: StampRead): (r: Option<(Record, string)>)
    ensures r.Some? ==> |r.value.1| < |st.rest|
  {
    var StampRead(sec, millis, bytes, rest) := st;
    if rest == "" then None
    else if rest[0] == '>' || rest[0] == '<' then
      if |rest| < 4 + bytes || rest[1..3] != ": " || rest[3 + bytes] != '\n' then None
      else Some((Data(sec, millis, if rest[0] == '>' then 0 else 1, rest[3..3 + bytes]), rest[4 + bytes..]))
    else if (rest[0] == ']' || rest[0] == '[') && bytes == 0 then
      Some((Eof(sec, millis, if rest[0] == ']' then 0 else 1), rest[1..]))
    else None
  }

  /** The first record of s and what follows it. */
  function Decode(s: string): (r: Option<(Record, string)>)
    ensures r.Some? ==> |r.value.1| < |s|
  {
    match ReadStamp(s)
    case None => None
    case Some(st) => ReadBody(st)
  }

  function DecodeAll(s: string): Option<seq<Record>>
    decreases |s|
  {
    if s == "" then Some([])
    else
      match Decode(s)
      case None => None
      case Some((r, rest)) =>
        match DecodeAll(rest)
        case None => None
        case Some(rs) => Some([r] + rs)
  }

  // ----- every transcript reads back as the records written

  predicate AllDigits(ds: string) {
    forall c :: c in ds ==> IsDigit(c)
  }

  lemma {:induction false} DigitsRead(n: nat)
    ensures AllDigits(Digits(n)) && Digits(n) != "" && Value(Digits(n)) == n
  {
    if n < 10 {
      assert Digits(n)[..0] == "";
      assert Value("") == 0;
    } else {
      DigitsRead(n / 10);
      var ds := Digits(n);
      assert ds[..|ds| - 1] == Digits(n / 10);
    }
  }

  lemma ValueOfThree(a: char, b: char, c: char)
    requires IsDigit(a) && IsDigit(b) && IsDigit(c)
    ensures Value([a, b, c]) == 100 * (a as int - '0' as int) + 10 * (b as int - '0' as int) + (c as int - '0' as int)
  {
    assert [a, b, c][..2] == [a, b] && [a, b][..1] == [a] && [a][..0] == "";
    assert Value([a]) == a as int - '0' as int;
    assert Value([a, b]) == 10 * Value([a]) + (b as int - '0' as int);
  }

  lemma Zero3Read(n: nat)
    requires n < 1000
    ensures AllDigits(Zero3(n)) && |Zero3(n)| == 3 && Value(Zero3(n)) == n
  {
    assert n == 100 * (n / 100) + 10 * (n / 10 % 10) + n % 10;
    ValueOfThree(DigitChar(n / 100), DigitChar(n / 10 % 10), DigitChar(n % 10));
  }

  lemma {:induction false} DigitRunStops(ds: string, t: string)
    requires AllDigits(ds) && (t == "" || !IsDigit(t[0]))
    ensures DigitRun(ds + t) == |ds|
  {
    if ds == "" {
      assert ds + t == t;
    } else {
      DigitRunStops(ds[1..], t);
      assert (ds + t)[1..] == ds[1..] + t;
    }
  }

  lemma ReadNumberBack(ds: string, n: nat, t: string)
    requires AllDigits(ds) && ds != "" && Value(ds) == n && (t == "" || !IsDigit(t[0]))
    ensures ReadNumber(ds + t) == Some((n, t))
  {
    DigitRunStops(ds, t);
    assert (ds + t)[..|ds|] == ds && (ds + t)[|ds|..] == t;
  }

  lemma {:induction false} SkipSpacesBack(n: int, t: string)
    requires t != "" && t[0] != ' '
    ensures SkipSpaces(Spaces(n) + t) == t
  {
    if n <= 0 {
      assert Spaces(n) + t == t;
    } else {
      SkipSpacesBack(n - 1, t);
      assert (Spaces(n) + t)[1..] == Spaces(n - 1) + t;
    }
  }

  lemma ExpectBack(lit: string, t: string)
    ensures Expect(lit + t, lit) == Some(t)
  {
    assert (lit + t)[|lit|..] == t;
  }

  lemma ReadTimeParts(s: string, s1: string, sec: nat, s2: string, s3: string, millis: nat, s4: string, t: string)
    requires Expect(s, "[") == Some(s1) && ReadNumber(SkipSpaces(s1)) == Some((sec, s2)) && Expect(s2, ".") == Some(s3)
    requires ReadNumber(s3) == Some((millis, s4)) && Expect(s4, "s/") == Some(t)
    ensures ReadTime(s) == Some((sec, millis, t))
  {
  }

  lemma ReadPadded(n: int, d: string, sec: nat, t: string)
    requires AllDigits(d) && d != "" && Value(d) == sec && t != "" && !IsDigit(t[0])
    ensures ReadNumber(SkipSpaces(Spaces(n) + (d + t))) == Some((sec, t))
  {
    assert (d + t)[0] == d[0] && d[0] in d;
    SkipSpacesBack(n, d + t);
    ReadNumberBack(d, sec, t);
  }

  lemma ReadTimeOf(d: string, sec: nat, z: string, millis: nat, s1: string, s2: string, s3: string, s4: string,
                   t: string)
    requires AllDigits(d) && d != "" && Value(d) == sec
    requires AllDigits(z) && z != "" && Value(z) == millis
    requires s4 == "s/" + t && s3 == z + s4 && s2 == "." + s3 && s1 == Spaces(3 - |d|) + (d + s2)
    ensures ReadTime("[" + s1) == Some((sec, millis, t))
  {
    ExpectBack("[", s1);
    ReadPadded(3 - |d|, d, sec, s2);
    ExpectBack(".", s3);
    ReadNumberBack(z, millis, s4);
    ExpectBack("s/", t);
    ReadTimeParts("[" + s1, s1, sec, s2, s3, millis, s4, t);
  }

  lemma RegroupTime(p: string, d: string, z: string, t: string)
    ensures ("[" + (p + d) + "." + z + "s/") + t == "[" + (p + (d + ("." + (z + ("s/" + t)))))
  {
  }

  lemma ReadTimeBack(sec: nat, millis: nat, t: string)
    requires millis < 1000
    ensures ReadTime(Time(sec, millis) + t) == Some((sec, millis, t))
  {
    DigitsRead(sec);
    Zero3Read(millis);
    var d, z, s4 := Digits(sec), Zero3(millis), "s/" + t;
    var s2 := "." + (z + s4);
    ReadTimeOf(d, sec, z, millis, Spaces(3 - |d|) + (d + s2), s2, z + s4, s4, t);
    RegroupTime(Spaces(3 - |d|), d, z, t);
  }

  lemma ReadStampBack(sec: nat, millis: nat, bytes: nat, t: string)
    requires millis < 1000
    ensures ReadStamp(Stamp(sec, millis, bytes) + t) == Some(StampRead(sec, millis, bytes, t))
  {
    var b := Digits(bytes);
    DigitsRead(bytes);
    var s6 := "]" + t;
    assert Stamp(sec, millis, bytes) + t == Time(sec, millis) + (b + s6);
    ReadTimeBack(sec, millis, b + s6);
    ReadNumberBack(b, bytes, s6);
    ExpectBack("]", t);
  }

  lemma ReadDataBack(sec: nat, millis: nat, from: nat, payload: string, t: string)
    requires from < 2
    ensures ReadBody(StampRead(sec, millis, |payload|, (Direction(from) + (payload + "\n")) + t))
            == Some((Data(sec, millis, from, payload), t))
  {
    var rest := (Direction(from) + (payload + "\n")) + t;
    assert rest[1..3] == ": ";
    assert rest[3..3 + |payload|] == payload;
    assert rest[3 + |payload|] == '\n';
    assert rest[4 + |payload|..] == t;
  }

  lemma Associate(a: string, b: string, c: string)
    ensures (a + b) + c == a + (b + c)
  {
  }

  lemma Reassociate(a: string, b: string, c: string, d: string)
    ensures ((a + b) + c) + d == a + ((b + c) + d)
  {
  }

  lemma DecodeDataBack(sec: nat, millis: nat, from: nat, payload: string, t: string)
    requires Writable(Data(sec, millis, from, payload))
    ensures Decode(Encode(Data(sec, millis, from, payload)) + t) == Some((Data(sec, millis, from, payload), t))
  {
    var body := payload + "\n";
    ReadStampBack(sec, millis, |payload|, (Direction(from) + body) + t);
    ReadDataBack(sec, millis, from, payload, t);
    Reassociate(Stamp(sec, millis, |payload|), Direction(from), body, t);
  }

  lemma ReadEofBack(sec: nat, millis: nat, from: nat, t: string)
    requires from < 2
    ensures ReadBody(StampRead(sec, millis, 0, EofMark(from) + t)) == Some((Eof(sec, millis, from), t))
  {
    assert (EofMark(from) + t)[1..] == t;
  }

  lemma DecodeEofBack(sec: nat, millis: nat, from: nat, t: string)
    requires Writable(Eof(sec, millis, from))
    ensures Decode(Encode(Eof(sec, millis, from)) + t) == Some((Eof(sec, millis, from), t))
  {
    ReadStampBack(sec, millis, 0, EofMark(from) + t);
    ReadEofBack(sec, millis, from, t);
    Associate(Stamp(sec, millis, 0), EofMark(from), t);
  }

  lemma DecodeBack(r: Record, t: string)
    requires Writable(r)
    ensures Decode(Encode(r) + t) == Some((r, t))
  {
    match r
    case Data(sec, millis, from, payload) => DecodeDataBack(sec, millis, from, payload, t);
    case Eof(sec, millis, from) => DecodeEofBack(sec, millis, from, t);
  }

  lemma EncodeAllHead(rs: seq<Record>)
    requires rs != [] && forall r :: r in rs ==> Writable(r)
    ensures EncodeAll(rs) == Encode(rs[0]) + EncodeAll(rs[1..])
  {
    assert Encodings(rs)[1..] == Encodings(rs[1..]);
  }

  lemma DecodeAllStep(s: string)
    requires s != ""
    ensures DecodeAll(s) ==
            if Decode(s) == None then None
            else if DecodeAll(Decode(s).value.1) == None then None
            else Some([Decode(s).value.0] + DecodeAll(Decode(s).value.1).value)
  {
  }

  lemma DecodeHead(rs: seq<Record>, transcript: string, rest: string)
    requires rs != [] && forall r :: r in rs ==> Writable(r)
    requires transcript == EncodeAll(rs) && rest == EncodeAll(rs[1..])
    ensures Decode(transcript) == Some((rs[0], rest))
  {
    EncodeAllHead(rs);
    DecodeBack(rs[0], rest);
  }

  lemma HeadAndTail(rs: seq<Record>)
    requires rs != []
    ensures [rs[0]] + rs[1..] == rs
  {
  }

  /** Reading a transcript recovers exactly the records, whatever bytes the payloads contain. */
  lemma {:induction false} DecodeAllBack(rs: seq<Record>, transcript: string)
    requires forall r :: r in rs ==> Writable(r)
    requires transcript == EncodeAll(rs)
    ensures DecodeAll(transcript) == Some(rs)
    decreases |rs|
  {
    if rs == [] {
      assert transcript == "";
    } else {
      var rest := EncodeAll(rs[1..]);
      DecodeAllBack(rs[1..], rest);
      DecodeHead(rs, transcript, rest);
      DecodeAllStep(transcript);
      HeadAndTail(rs);
    }
  }

  /** No two different record sequences have the same transcript. */
  lemma TranscriptUnique(rs: seq<Record>, rs': seq<Record>)
    requires forall r :: r in rs ==> Writable(r)
    requires forall r :: r in rs' ==> Writable(r)
    requires EncodeAll(rs) == EncodeAll(rs')
    ensures rs == rs'
  {
    DecodeAllBack(rs, EncodeAll(rs));
    DecodeAllBack(rs', EncodeAll(rs'));
  }

  // ----- the header fits its buffer

  const HEADER_SIZE: nat := 64

  function Pow10(k: nat): nat {
    if k == 0 then 1 else 10 * Pow10(k - 1)
  }

  lemma {:induction false} DigitsLength(n: nat, k: nat)
    requires 0 < k && n < Pow10(k)
    ensures |Digits(n)| <= k
  {
    if n >= 10 {
      DigitsLength(n / 10, k - 1);
    }
  }

  lemma {:induction false} SpacesLength(n: int)
    ensures |Spaces(n)| == if n <= 0 then 0 else n
  {
    if n > 0 {
      SpacesLength(n - 1);
    }
  }

  /** For every second an int and every byte count a ssize_t can hold, the header is never truncated. */
  lemma HeaderFits(sec: nat, millis: nat, bytes: nat, from: nat)
    requires sec < 0x8000_0000 && millis < 1000 && bytes < 0x8000_0000_0000_0000
    ensures |Header(sec, millis, bytes, from)| <= 40 < HEADER_SIZE
  {
    assert Pow10(5) == 100000;
    assert Pow10(10) == 10000000000;
    assert Pow10(15) == 1000000000000000;
    assert Pow10(19) == 10000000000000000000;
    DigitsLength(sec, 10);
    DigitsLength(bytes, 19);
    SpacesLength(3 - |Digits(sec)|);
  }
}
