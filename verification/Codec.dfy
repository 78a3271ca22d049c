/**
 * A concrete codec for log records (pkg/storage/wal.go:58-94). A record is one flat JSON object on
 * one line: numbers, and strings escaped as section 7 of RFC 8259 allows. Characters stand for
 * bytes. Braces inside strings are always escaped, so a decodable line has its only braces at its
 * two ends; that is what makes torn and glued lines recognisable.
 */
module Codec {
  import opened Model

  datatype Record = Record(
    v: nat,
    op: string,
    recordNo: nat,
    ts: Time,
    id: string,
    msgSeq: nat,
    payload: string,
    priority: Option<int>,
    enqueuedAt: Option<Time>,
    availableAt: Option<Time>,
    status: string)

  datatype Value = Num(n: int) | Str(s: string)

  datatype Field = Field(key: string, value: Value)

  /** A value with what is left of the input after it. */
  datatype Parsed<+T> = Parsed(value: T, rest: string)

  /** No brace and no newline. */
  predicate Clean(s: string) {
    forall i :: 0 <= i < |s| ==> s[i] != '{' && s[i] != '}' && s[i] != '\n'
  }

  /** rest is what remains of s once a clean part is read. */
  predicate Reads(s: string, rest: string) {
    && |rest| <= |s|
    && s[|s| - |rest|..] == rest
    && Clean(s[..|s| - |rest|])
  }

  lemma ReadsSome(s: string, k: nat)
    requires k <= |s| && Clean(s[..k])
    ensures Reads(s, s[k..])
  {
  }

  lemma ReadsOn(s: string, middle: string, rest: string)
    requires Reads(s, middle) && Reads(middle, rest)
    ensures Reads(s, rest)
  {
    var i, j := |s| - |middle|, |middle| - |rest|;
    assert s[i..][..j] == middle[..j];
    assert s[..i + j] == s[..i] + middle[..j];
    assert s[i..][j..] == s[i + j..];
  }

  // ---------- Strings ----------

  predicate Plain(c: char) {
    ' ' <= c && c != '"' && c != '\\' && c != '{' && c != '}'
  }

  function HexDigit(n: int): char
    requires 0 <= n < 16
  {
    if n < 10 then '0' + n as char else 'a' + (n - 10) as char
  }

  function HexValue(c: char): Option<int> {
    if '0' <= c <= '9' then Some(c as int - '0' as int)
    else if 'a' <= c <= 'f' then Some(c as int - 'a' as int + 10)
    else None
  }

  function EscapeChar(c: char): string {
    if Plain(c) then [c]
    else "\\u00" + [HexDigit(c as int / 16), HexDigit(c as int % 16)]
  }

  function Escape(s: string): string {
    if s == "" then "" else EscapeChar(s[0]) + Escape(s[1..])
  }

  /** The characters of a string up to and with its closing quote. */
  function ParseChars(s: string): (r: Option<Parsed<string>>)
    ensures r.Some? ==> |r.value.rest| < |s|
  {
    if s == "" then None
    else if s[0] == '"' then Some(Parsed("", s[1..]))
    else if Plain(s[0]) then
      match ParseChars(s[1..])
      case None => None
      case Some(p) => Some(Parsed([s[0]] + p.value, p.rest))
    else if IsEscape(s) then
      match ParseChars(s[6..])
      case None => None
      case Some(p) => Some(Parsed([EscapedChar(s)] + p.value, p.rest))
    else None
  }

  predicate IsEscape(s: string) {
    |s| >= 6 && s[0] == '\\' && s[1] == 'u' && s[2] == '0' && s[3] == '0'
    && HexValue(s[4]).Some? && HexValue(s[5]).Some?
  }

  function EscapedChar(s: string): char
    requires IsEscape(s)
  {
    (HexValue(s[4]).value * 16 + HexValue(s[5]).value) as char
  }

  lemma {:induction false} ParseCharsReads(s: string)
    requires ParseChars(s).Some?
    ensures Reads(s, ParseChars(s).value.rest)
  {
    var rest := ParseChars(s).value.rest;
    if s[0] == '"' {
      ReadsSome(s, 1);
    } else if Plain(s[0]) {
      ParseCharsReads(s[1..]);
      ReadsSome(s, 1);
      ReadsOn(s, s[1..], rest);
    } else {
      ParseCharsReads(s[6..]);
      ReadsSome(s, 6);
      ReadsOn(s, s[6..], rest);
    }
  }

  lemma HexRoundTrip(n: int)
    requires 0 <= n < 16
    ensures HexValue(HexDigit(n)) == Some(n)
  {
  }

  lemma EscapeCharParses(c: char, tail: string)
    requires !Plain(c)
    ensures var s := EscapeChar(c) + tail;
            !Plain(s[0]) && s[0] != '"' && IsEscape(s) && EscapedChar(s) == c && s[6..] == tail
  {
    HexRoundTrip(c as int / 16);
    HexRoundTrip(c as int % 16);
  }

  lemma {:induction false} ParseCharsUndoesEscape(s: string, rest: string)
    ensures ParseChars(Escape(s) + "\"" + rest) == Some(Parsed(s, rest))
  {
    if s != "" {
      var tail := Escape(s[1..]) + "\"" + rest;
      var text := Escape(s) + "\"" + rest;
      assert text == EscapeChar(s[0]) + tail;
      ParseCharsUndoesEscape(s[1..], rest);
      assert s == [s[0]] + s[1..];
      if Plain(s[0]) {
        assert text[0] == s[0] && text[1..] == tail;
        assert ParseChars(text) == Some(Parsed([s[0]] + s[1..], rest));
      } else {
        EscapeCharParses(s[0], tail);
      }
    }
  }

  // ---------- Numbers ----------

  function Digits(n: nat): string {
    if n < 10 then [HexDigit(n)] else Digits(n / 10) + [HexDigit(n % 10)]
  }

  predicate IsDigit(c: char) {
    '0' <= c <= '9'
  }

  function ParseDigits(s: string, acc: int): (p: Parsed<int>)
    ensures |p.rest| <= |s|
    ensures s != "" && IsDigit(s[0]) ==> |p.rest| < |s|
  {
    if s != "" && IsDigit(s[0]) then ParseDigits(s[1..], acc * 10 + (s[0] as int - '0' as int))
    else Parsed(acc, s)
  }

  function ParseNumber(s: string): (r: Option<Parsed<int>>)
    ensures r.Some? ==> |r.value.rest| < |s|
  {
    if s != "" && IsDigit(s[0]) then Some(ParseDigits(s, 0))
    else if |s| > 1 && s[0] == '-' && IsDigit(s[1]) then
      var p := ParseDigits(s[1..], 0);
      Some(Parsed(-p.value, p.rest))
    else None
  }

  lemma {:induction false} ParseDigitsReads(s: string, acc: int)
    ensures Reads(s, ParseDigits(s, acc).rest)
  {
    if s != "" && IsDigit(s[0]) {
      ParseDigitsReads(s[1..], acc * 10 + (s[0] as int - '0' as int));
      ReadsSome(s, 1);
      ReadsOn(s, s[1..], ParseDigits(s, acc).rest);
    } else {
      ReadsSome(s, 0);
    }
  }

  lemma ParseNumberReads(s: string)
    requires ParseNumber(s).Some?
    ensures Reads(s, ParseNumber(s).value.rest)
  {
    if IsDigit(s[0]) {
      ParseDigitsReads(s, 0);
    } else {
      ParseDigitsReads(s[1..], 0);
      ReadsSome(s, 1);
      ReadsOn(s, s[1..], ParseNumber(s).value.rest);
    }
  }

  function NumberText(n: int): string {
    if n < 0 then "-" + Digits(-n) else Digits(n)
  }

  lemma {:induction false} ParseDigitsUndoesDigits(n: nat, rest: string)
    ensures Digits(n) != "" && IsDigit(Digits(n)[0])
    ensures ParseDigits(Digits(n) + rest, 0) == ParseDigits(rest, n)
  {
    if n < 10 {
      assert (Digits(n) + rest)[1..] == rest;
    } else {
      var last := [HexDigit(n % 10)];
      ParseDigitsUndoesDigits(n / 10, last + rest);
      assert Digits(n) + rest == Digits(n / 10) + (last + rest);
      assert (last + rest)[1..] == rest;
    }
  }

  lemma ParseNumberUndoesText(n: int, rest: string)
    requires rest != "" && !IsDigit(rest[0])
    ensures ParseNumber(NumberText(n) + rest) == Some(Parsed(n, rest))
  {
    var d := Digits(if n < 0 then -n else n);
    ParseDigitsUndoesDigits(if n < 0 then -n else n, rest);
    if n < 0 {
      assert (NumberText(n) + rest)[1..] == d + rest;
    }
  }

  // ---------- Objects ----------

  function ValueText(v: Value): string {
    match v
    case Num(n) => NumberText(n)
    case Str(s) => "\"" + Escape(s) + "\""
  }

  function ParseValue(s: string): (r: Option<Parsed<Value>>)
    ensures r.Some? ==> |r.value.rest| < |s|
  {
    if s != "" && s[0] == '"' then
      match ParseChars(s[1..])
      case None => None
      case Some(p) => Some(Parsed(Str(p.value), p.rest))
    else
      match ParseNumber(s)
      case None => None
      case Some(p) => Some(Parsed(Num(p.value), p.rest))
  }

  lemma ParseValueReads(s: string)
    requires ParseValue(s).Some?
    ensures Reads(s, ParseValue(s).value.rest)
  {
    if s != "" && s[0] == '"' {
      ParseCharsReads(s[1..]);
      ReadsSome(s, 1);
      ReadsOn(s, s[1..], ParseValue(s).value.rest);
    } else {
      ParseNumberReads(s);
    }
  }

  function FieldText(f: Field): string {
    "\"" + Escape(f.key) + "\":" + ValueText(f.value)
  }

  function ParseField(s: string): (r: Option<Parsed<Field>>)
    ensures r.Some? ==> |r.value.rest| < |s|
  {
    if s == "" || s[0] != '"' then None
    else
      match ParseChars(s[1..])
      case None => None
      case Some(k) =>
        if k.rest == "" || k.rest[0] != ':' then None
        else
          match ParseValue(k.rest[1..])
          case None => None
          case Some(v) => Some(Parsed(Field(k.value, v.value), v.rest))
  }

  lemma ParseFieldReads(s: string)
    requires ParseField(s).Some?
    ensures Reads(s, ParseField(s).value.rest)
  {
    var k := ParseChars(s[1..]).value.rest;
    ParseCharsReads(s[1..]);
    ParseValueReads(k[1..]);
    ReadsSome(s, 1);
    ReadsOn(s, s[1..], k);
    ReadsSome(k, 1);
    ReadsOn(s, k, k[1..]);
    ReadsOn(s, k[1..], ParseField(s).value.rest);
  }

  /** The fields of an object after its opening brace, with the closing one. */
  function FieldsText(fs: seq<Field>): string
    requires fs != []
  {
    if |fs| == 1 then FieldText(fs[0]) + "}"
    else FieldText(fs[0]) + ("," + FieldsText(fs[1..]))
  }

  function ParseFields(s: string): (r: Option<seq<Field>>)
    decreases |s|
  {
    match ParseField(s)
    case None => None
    case Some(p) =>
      if p.rest == "}" then Some([p.value])
      else if p.rest != "" && p.rest[0] == ',' then
        match ParseFields(p.rest[1..])
        case None => None
        case Some(fs) => Some([p.value] + fs)
      else None
  }

  lemma ParseFieldsStep(s: string, p: Parsed<Field>)
    requires ParseField(s) == Some(p)
    ensures p.rest == "}" ==> ParseFields(s) == Some([p.value])
    ensures p.rest != "" && p.rest[0] == ',' && ParseFields(p.rest[1..]).Some? ==>
              ParseFields(s) == Some([p.value] + ParseFields(p.rest[1..]).value)
    ensures ParseFields(s).Some? && p.rest != "}" ==>
              |p.rest| < |s| && p.rest != "" && p.rest[0] == ',' && ParseFields(p.rest[1..]).Some?
  {
  }

  lemma {:induction false} ParseFieldsReads(s: string)
    requires ParseFields(s).Some?
    ensures Reads(s, "}")
    decreases |s|
  {
    ParseFieldReads(s);
    ParseFieldsStep(s, ParseField(s).value);
    var rest := ParseField(s).value.rest;
    if rest != "}" {
      ParseFieldsReads(rest[1..]);
      ReadsSome(rest, 1);
      ReadsOn(s, rest, rest[1..]);
      ReadsOn(s, rest[1..], "}");
    }
  }

  lemma ParseStringUndoesText(s: string, rest: string)
    ensures ParseValue(ValueText(Str(s)) + rest) == Some(Parsed(Str(s), rest))
  {
    var text := "\"" + Escape(s) + "\"" + rest;
    ParseCharsUndoesEscape(s, rest);
    assert text[1..] == Escape(s) + "\"" + rest;
    ParseValueOfQuoted(text, Parsed(s, rest));
  }

  lemma ParseValueOfQuoted(text: string, p: Parsed<string>)
    requires text != "" && text[0] == '"' && ParseChars(text[1..]) == Some(p)
    ensures ParseValue(text) == Some(Parsed(Str(p.value), p.rest))
  {
  }

  lemma ParseIntUndoesText(n: int, rest: string)
    requires rest != "" && !IsDigit(rest[0])
    ensures ParseValue(NumberText(n) + rest) == Some(Parsed(Num(n), rest))
  {
    ParseNumberUndoesText(n, rest);
    ParseDigitsUndoesDigits(if n < 0 then -n else n, rest);
    assert (NumberText(n) + rest)[0] != '"';
  }

  lemma ParseValueUndoesText(v: Value, rest: string)
    requires rest != "" && !IsDigit(rest[0])
    ensures ParseValue(ValueText(v) + rest) == Some(Parsed(v, rest))
  {
    match v
    case Num(n) => ParseIntUndoesText(n, rest);
    case Str(s) => ParseStringUndoesText(s, rest);
  }

  lemma ParseFieldUndoesText(f: Field, rest: string)
    requires rest != "" && !IsDigit(rest[0])
    ensures ParseField(FieldText(f) + rest) == Some(Parsed(f, rest))
  {
    var afterKey := ":" + (ValueText(f.value) + rest);
    assert (FieldText(f) + rest)[1..] == Escape(f.key) + "\"" + afterKey;
    ParseCharsUndoesEscape(f.key, afterKey);
    assert afterKey[1..] == ValueText(f.value) + rest;
    ParseValueUndoesText(f.value, rest);
  }

  lemma LastFieldParses(f: Field)
    ensures ParseFields(FieldText(f) + "}") == Some([f])
  {
    ParseFieldUndoesText(f, "}");
    ParseFieldsStep(FieldText(f) + "}", Parsed(f, "}"));
  }

  lemma FieldBeforeOthersParses(f: Field, tail: string)
    requires ParseFields(tail).Some?
    ensures ParseFields(FieldText(f) + ("," + tail)) == Some([f] + ParseFields(tail).value)
  {
    var more := "," + tail;
    ParseFieldUndoesText(f, more);
    assert more[1..] == tail;
    ParseFieldsStep(FieldText(f) + more, Parsed(f, more));
  }

  lemma {:induction false} ParseFieldsUndoesText(fs: seq<Field>)
    requires fs != []
    ensures ParseFields(FieldsText(fs)) == Some(fs)
  {
    if |fs| == 1 {
      LastFieldParses(fs[0]);
      assert fs == [fs[0]];
    } else {
      var tail := FieldsText(fs[1..]);
      ParseFieldsUndoesText(fs[1..]);
      FieldBeforeOthersParses(fs[0], tail);
      assert FieldsText(fs) == FieldText(fs[0]) + ("," + tail);
      assert fs == [fs[0]] + fs[1..];
    }
  }

  // ---------- Records ----------

  /** A field that is left out when it has no value. */
  datatype Slot = Slot(key: string, value: Option<Value>)

  function OmitEmpty(s: string): Option<Value> {
    if s == "" then None else Some(Str(s))
  }

  function OmitZero(n: nat): Option<Value> {
    if n == 0 then None else Some(Num(n))
  }

  function OmitNone(n: Option<int>): Option<Value> {
    match n
    case None => None
    case Some(x) => Some(Num(x))
  }

  function Slots(r: Record): seq<Slot> {
    [ Slot("v", Some(Num(r.v))),
      Slot("op", Some(Str(r.op))),
      Slot("seq", Some(Num(r.recordNo))),
      Slot("ts", Some(Num(r.ts))),
      Slot("id", OmitEmpty(r.id)),
      Slot("msg_seq", OmitZero(r.msgSeq)),
      Slot("payload", OmitEmpty(r.payload)),
      Slot("priority", OmitNone(r.priority)),
      Slot("enqueued_at", OmitNone(r.enqueuedAt)),
      Slot("available_at", OmitNone(r.availableAt)),
      Slot("status", OmitEmpty(r.status)) ]
  }

  function Present(slots: seq<Slot>): (fs: seq<Field>)
    ensures slots != [] && slots[0].value.Some? ==> fs != []
  {
    if slots == [] then []
    else
      match slots[0].value
      case None => Present(slots[1..])
      case Some(v) => [Field(slots[0].key, v)] + Present(slots[1..])
  }

  /** The value of a key; of several, the last. */
  function Lookup(fs: seq<Field>, key: string): Option<Value> {
    if fs == [] then None
    else
      match Lookup(fs[1..], key)
      case Some(v) => Some(v)
      case None => if fs[0].key == key then Some(fs[0].value) else None
  }

  /** A number field: absent, present, or of the wrong type. */
  function IntAt(fs: seq<Field>, key: string): Result<Option<int>, ()> {
    match Lookup(fs, key)
    case None => Ok(None)
    case Some(Num(n)) => Ok(Some(n))
    case Some(Str(_)) => Err(())
  }

  function NatAt(fs: seq<Field>, key: string): Result<nat, ()> {
    match IntAt(fs, key)
    case Ok(None) => Ok(0)
    case Ok(Some(n)) => if n < 0 then Err(()) else Ok(n)
    case Err(e) => Err(e)
  }

  function StringAt(fs: seq<Field>, key: string): Result<string, ()> {
    match Lookup(fs, key)
    case None => Ok("")
    case Some(Str(s)) => Ok(s)
    case Some(Num(_)) => Err(())
  }

  /** Unknown keys are ignored, missing ones read as zero values, ill-typed ones are an error. */
  function RecordOf(fs: seq<Field>): Option<Record> {
    var v, op, no := NatAt(fs, "v"), StringAt(fs, "op"), NatAt(fs, "seq");
    var ts, id, msgSeq := IntAt(fs, "ts"), StringAt(fs, "id"), NatAt(fs, "msg_seq");
    var payload, priority := StringAt(fs, "payload"), IntAt(fs, "priority");
    var enqueuedAt, availableAt := IntAt(fs, "enqueued_at"), IntAt(fs, "available_at");
    var status := StringAt(fs, "status");
    if v.Ok? && op.Ok? && no.Ok? && ts.Ok? && id.Ok? && msgSeq.Ok? && payload.Ok? && priority.Ok?
       && enqueuedAt.Ok? && availableAt.Ok? && status.Ok?
    then
      Some(Record(v.value, op.value, no.value, if ts.value == None then 0 else ts.value.value,
                  id.value, msgSeq.value, payload.value, priority.value,
                  enqueuedAt.value, availableAt.value, status.value))
    else None
  }

  function Encode(r: Record): string {
    "{" + FieldsText(Present(Slots(r)))
  }

  function Decode(line: string): Option<Record> {
    if line == "" || line[0] != '{' then None
    else
      match ParseFields(line[1..])
      case None => None
      case Some(fs) => RecordOf(fs)
  }

  ghost predicate DistinctKeys(slots: seq<Slot>) {
    forall i, j :: 0 <= i < j < |slots| ==> slots[i].key != slots[j].key
  }

  lemma {:induction false} LookupAbsent(slots: seq<Slot>, key: string)
    requires forall i :: 0 <= i < |slots| ==> slots[i].key != key
    ensures Lookup(Present(slots), key) == None
  {
    if slots != [] {
      LookupAbsent(slots[1..], key);
      if slots[0].value.Some? {
        assert Present(slots)[1..] == Present(slots[1..]);
      }
    }
  }

  lemma {:induction false} LookupPresent(slots: seq<Slot>, i: nat)
    requires DistinctKeys(slots) && i < |slots|
    ensures Lookup(Present(slots), slots[i].key) == slots[i].value
  {
    if slots[0].value.Some? {
      assert Present(slots)[1..] == Present(slots[1..]);
    }
    if i == 0 {
      LookupAbsent(slots[1..], slots[0].key);
    } else {
      LookupPresent(slots[1..], i - 1);
    }
  }

  lemma SlotsHaveDistinctKeys(r: Record)
    ensures DistinctKeys(Slots(r))
  {
    var s := Slots(r);
    assert s[1].key[0] == 'o' && s[3].key[0] == 't' && s[4].key[0] == 'i';
    assert s[5].key[0] == 'm' && s[6].key[0] == 'p';
  }

  lemma RecordOfUndoesSlots(r: Record)
    ensures RecordOf(Present(Slots(r))) == Some(r)
  {
    SlotsHaveDistinctKeys(r);
    forall i | 0 <= i < 11
      ensures Lookup(Present(Slots(r)), Slots(r)[i].key) == Slots(r)[i].value
    {
      LookupPresent(Slots(r), i);
    }
    SlotsByKey(Present(Slots(r)), r);
  }

  /** With each key looking up to its slot, the record is rebuilt. */
  lemma SlotsByKey(fs: seq<Field>, r: Record)
    requires forall i :: 0 <= i < 11 ==> Lookup(fs, Slots(r)[i].key) == Slots(r)[i].value
    ensures RecordOf(fs) == Some(r)
  {
    var s := Slots(r);
    assert Lookup(fs, s[0].key) == s[0].value && Lookup(fs, s[1].key) == s[1].value;
    assert Lookup(fs, s[2].key) == s[2].value && Lookup(fs, s[3].key) == s[3].value;
    assert Lookup(fs, s[4].key) == s[4].value && Lookup(fs, s[5].key) == s[5].value;
    assert Lookup(fs, s[6].key) == s[6].value && Lookup(fs, s[7].key) == s[7].value;
    assert Lookup(fs, s[8].key) == s[8].value && Lookup(fs, s[9].key) == s[9].value;
    assert Lookup(fs, s[10].key) == s[10].value;
  }

  /** Decoding undoes encoding, for every record. */
  lemma DecodeUndoesEncode(r: Record)
    ensures Decode(Encode(r)) == Some(r)
  {
    var fs := Present(Slots(r));
    ParseFieldsUndoesText(fs);
    assert Encode(r)[1..] == FieldsText(fs);
    RecordOfUndoesSlots(r);
  }

  /** A decodable line opens and closes with its only braces and holds no newline. */
  predicate Braced(line: string) {
    && |line| >= 2 && line[0] == '{' && line[|line| - 1] == '}'
    && forall i :: 0 < i < |line| - 1 ==> line[i] != '{' && line[i] != '}' && line[i] != '\n'
  }

  lemma DecodableIsBraced(line: string)
    requires Decode(line).Some?
    ensures Braced(line)
  {
    ParseFieldsReads(line[1..]);
    ReadsToBrace(line);
  }

  lemma ReadsToBrace(line: string)
    requires line != "" && line[0] == '{' && Reads(line[1..], "}")
    ensures Braced(line)
  {
    var body := line[1..];
    assert body[|body| - 1..][0] == '}';
    forall i | 0 < i < |line| - 1 ensures line[i] != '{' && line[i] != '}' && line[i] != '\n' {
      assert body[..|body| - 1][i - 1] == line[i];
    }
  }

  lemma EncodedIsBraced(r: Record)
    ensures Braced(Encode(r))
  {
    DecodeUndoesEncode(r);
    DecodableIsBraced(Encode(r));
  }

  /** No strict prefix of an encoded record decodes. */
  lemma TornDoesNotDecode(r: Record, k: nat)
    requires k < |Encode(r)|
    ensures Decode(Encode(r)[..k]) == None
  {
    EncodedIsBraced(r);
    if Decode(Encode(r)[..k]).Some? {
      DecodableIsBraced(Encode(r)[..k]);
      assert false;
    }
  }

  /** A record written straight after left-over bytes makes one line that does not decode. */
  lemma GluedDoesNotDecode(tail: string, r: Record)
    requires tail != ""
    ensures Decode(tail + Encode(r)) == None
  {
    EncodedIsBraced(r);
    assert (tail + Encode(r))[|tail|] == '{';
    if Decode(tail + Encode(r)).Some? {
      DecodableIsBraced(tail + Encode(r));
      assert false;
    }
  }

  // ---------- What the log needs of a codec ----------

  datatype RecordCodec = RecordCodec(encode: Record -> string, decode: string -> Option<Record>) {

    /** A record keeps to one line. */
    ghost predicate OneLine() {
      forall r :: '\n' !in encode(r)
    }

    ghost predicate RoundTrips() {
      forall r {:trigger decode(encode(r))} :: decode(encode(r)) == Some(r)
    }

    /** No strict prefix of a record decodes. */
    ghost predicate RefusesTorn() {
      forall r, k {:trigger decode(encode(r)[..k])} :: 0 <= k < |encode(r)| ==> decode(encode(r)[..k]) == None
    }

    /** No record decodes when it is written straight after the remains of another. */
    ghost predicate RefusesGlued() {
      forall q, k, r {:trigger decode(encode(q)[..k] + encode(r))} ::
        0 < k <= |encode(q)| ==> decode(encode(q)[..k] + encode(r)) == None
    }

    ghost predicate Sound() {
      OneLine() && RoundTrips() && RefusesTorn() && RefusesGlued()
    }
  }

  function Json(): RecordCodec {
    RecordCodec(Encode, Decode)
  }

  lemma JsonIsOneLine()
    ensures Json().OneLine()
  {
    forall r: Record ensures '\n' !in Encode(r) {
      EncodedIsBraced(r);
    }
  }

  lemma JsonRoundTrips()
    ensures Json().RoundTrips()
  {
    forall r: Record ensures Decode(Encode(r)) == Some(r) {
      DecodeUndoesEncode(r);
    }
  }

  lemma JsonRefusesTorn()
    ensures Json().RefusesTorn()
  {
    forall r: Record, k | 0 <= k < |Encode(r)| ensures Decode(Encode(r)[..k]) == None {
      TornDoesNotDecode(r, k);
    }
  }

  lemma JsonRefusesGlued()
    ensures Json().RefusesGlued()
  {
    forall q: Record, k, r: Record | 0 < k <= |Encode(q)| ensures Decode(Encode(q)[..k] + Encode(r)) == None {
      GluedDoesNotDecode(Encode(q)[..k], r);
    }
  }

  /** The concrete codec is all that the log needs. */
  lemma JsonIsSound()
    ensures Json().Sound()
  {
    JsonIsOneLine();
    JsonRoundTrips();
    JsonRefusesTorn();
    JsonRefusesGlued();
  }
}
