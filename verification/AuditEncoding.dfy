/**
  The v3 audit row encoding (RFC 0110 section 5.1): fifteen length-prefixed fields in declared
  order. It is uniquely decodable, and the decoder accepts nothing else.
 */
module AuditEncoding {
  import opened Wrappers

  type byte = x: int | 0 <= x < 256

  // Octets of a UTF-8 string.
  type Text = seq<byte>

  const MINUS: byte := 45
  const ZERO: byte := 48
  const ONE: byte := 49
  const COLON: byte := 58

  const NULL_FIELD: Text := [MINUS, ONE, COLON]

  // ---------------------------------------------------------------- decimal integers

  function Digits(n: nat): (t: Text)
    ensures |t| > 0
  {
    if n < 10 then [ZERO + n] else Digits(n / 10) + [ZERO + n % 10]
  }

  predicate IsDigit(b: byte) {
    ZERO <= b < ZERO + 10
  }

  ghost predicate AllDigits(t: Text) {
    forall i :: 0 <= i < |t| ==> IsDigit(t[i])
  }

  ghost function ValueOf(t: Text): int {
    if t == [] then 0 else 10 * ValueOf(t[..|t| - 1]) + (t[|t| - 1] - ZERO)
  }

  lemma {:induction false} DigitsRoundTrip(n: nat)
    ensures AllDigits(Digits(n)) && ValueOf(Digits(n)) == n
  {
    if n >= 10 {
      DigitsRoundTrip(n / 10);
      assert Digits(n)[..|Digits(n)| - 1] == Digits(n / 10);
    } else {
      assert Digits(n)[..0] == [];
    }
  }

  function Itoa(i: int): Text {
    if i < 0 then [MINUS] + Digits(-i) else Digits(i)
  }

  ghost function Atoi(t: Text): Option<int> {
    if |t| > 0 && t[0] == MINUS then
      if Itoa(-ValueOf(t[1..])) == t then Some(-ValueOf(t[1..])) else None
    else if Itoa(ValueOf(t)) == t then Some(ValueOf(t)) else None
  }

  lemma AtoiInvertsItoa(i: int)
    ensures Atoi(Itoa(i)) == Some(i)
  {
    if i < 0 {
      DigitsRoundTrip(-i);
      assert Itoa(i)[1..] == Digits(-i);
    } else {
      DigitsRoundTrip(i);
      assert IsDigit(Digits(i)[0]);
    }
  }

  lemma AtoiIsCanonical(t: Text)
    ensures Atoi(t).Some? ==> Itoa(Atoi(t).value) == t
  {
  }

  // ---------------------------------------------------------------- one field

  type Field = Option<Text>

  function EncodeField(f: Field): Text {
    if f.None? then NULL_FIELD else Digits(|f.value|) + [COLON] + f.value
  }

  ghost function ColonAt(t: Text): nat {
    if t == [] || t[0] == COLON then 0 else 1 + ColonAt(t[1..])
  }

  lemma {:induction false} ColonAfter(head: Text, rest: Text)
    requires forall i :: 0 <= i < |head| ==> head[i] != COLON
    ensures ColonAt(head + [COLON] + rest) == |head|
    decreases |head|
  {
    var t := head + [COLON] + rest;
    if head != [] {
      ColonAfter(head[1..], rest);
      assert t[1..] == head[1..] + [COLON] + rest;
    }
  }

  // One field off the front: the marker `-1:`, or a canonical decimal length, a colon and that
  // many octets. Leading zeros, signs and short bodies are refused.
  ghost function DecodeField(t: Text): Option<(Field, Text)> {
    var c := ColonAt(t);
    if c >= |t| then None
    else
      var head, rest := t[..c], t[c + 1..];
      if head == [MINUS, ONE] then Some((None, rest))
      else
        var n := ValueOf(head);
        if 0 <= n <= |rest| && Digits(n) == head then Some((Some(rest[..n]), rest[n..])) else None
  }

  lemma DecodeFieldInverts(f: Field, rest: Text)
    ensures DecodeField(EncodeField(f) + rest) == Some((f, rest))
  {
    var t := EncodeField(f) + rest;
    if f.None? {
      ColonAfter([MINUS, ONE], rest);
      assert t == [MINUS, ONE] + [COLON] + rest;
      assert t[..2] == [MINUS, ONE] && t[3..] == rest;
    } else {
      var head := Digits(|f.value|);
      DigitsRoundTrip(|f.value|);
      ColonAfter(head, f.value + rest);
      assert t == head + [COLON] + (f.value + rest);
      assert t[..|head|] == head && t[|head| + 1..] == f.value + rest;
      assert head[0] != MINUS;
    }
  }

  lemma {:induction false} ColonFound(t: Text)
    requires ColonAt(t) < |t|
    ensures t[ColonAt(t)] == COLON
    decreases |t|
  {
    if t[0] != COLON {
      ColonFound(t[1..]);
    }
  }

  lemma DecodeFieldIsCanonical(t: Text)
    ensures DecodeField(t).Some? ==> EncodeField(DecodeField(t).value.0) + DecodeField(t).value.1 == t
  {
    if DecodeField(t).Some? {
      var c := ColonAt(t);
      ColonFound(t);
      assert t == t[..c] + [COLON] + t[c + 1..];
    }
  }

  // ---------------------------------------------------------------- a list of fields

  function EncodeFields(fs: seq<Field>): Text {
    if fs == [] then [] else EncodeField(fs[0]) + EncodeFields(fs[1..])
  }

  ghost function DecodeFields(n: nat, t: Text): Option<seq<Field>> {
    if n == 0 then if t == [] then Some([]) else None
    else match DecodeField(t)
      case None => None
      case Some((f, rest)) =>
        match DecodeFields(n - 1, rest)
        case None => None
        case Some(fs) => Some([f] + fs)
  }

  lemma {:induction false} DecodeFieldsInverts(fs: seq<Field>)
    ensures DecodeFields(|fs|, EncodeFields(fs)) == Some(fs)
    decreases |fs|
  {
    if fs != [] {
      DecodeFieldInverts(fs[0], EncodeFields(fs[1..]));
      DecodeFieldsInverts(fs[1..]);
      assert [fs[0]] + fs[1..] == fs;
    }
  }

  lemma {:induction false} DecodeFieldsIsCanonical(n: nat, t: Text)
    ensures DecodeFields(n, t).Some? ==> |DecodeFields(n, t).value| == n && EncodeFields(DecodeFields(n, t).value) == t
  {
    if n > 0 && DecodeFields(n, t).Some? {
      var (f, rest) := DecodeField(t).value;
      DecodeFieldIsCanonical(t);
      DecodeFieldsIsCanonical(n - 1, rest);
      var fs := DecodeFields(n - 1, rest).value;
      assert ([f] + fs)[1..] == fs;
    }
  }

  // ---------------------------------------------------------------- a row

  // The fifteen hashed columns; every one may be null in what a verifier is handed.
  datatype HashedRow = HashedRow(
    ts: Field,
    schemaVersion: Option<int>,
    hashFormat: Option<int>,
    daemonVersion: Field,
    clientId: Field,
    repositoryId: Field,
    method_: Field,
    decision: Field,
    denialReason: Field,
    transport: Field,
    requestId: Field,
    exitCode: Option<int>,
    paramsSha256: Field,
    previousHash: Field,
    segmentId: Option<int>)

  function IntField(i: Option<int>): Field {
    if i.None? then None else Some(Itoa(i.value))
  }

  ghost function ParseIntField(f: Field): Option<Option<int>> {
    if f.None? then Some(None)
    else if Atoi(f.value).Some? then Some(Atoi(f.value))
    else None
  }

  function FieldsOf(r: HashedRow): seq<Field> {
    [r.ts, IntField(r.schemaVersion), IntField(r.hashFormat), r.daemonVersion, r.clientId, r.repositoryId,
     r.method_, r.decision, r.denialReason, r.transport, r.requestId, IntField(r.exitCode), r.paramsSha256,
     r.previousHash, IntField(r.segmentId)]
  }

  ghost function RowOf(fs: seq<Field>): Option<HashedRow>
    requires |fs| == 15
  {
    var a, b, c, d := ParseIntField(fs[1]), ParseIntField(fs[2]), ParseIntField(fs[11]), ParseIntField(fs[14]);
    if a.None? || b.None? || c.None? || d.None? then None
    else Some(HashedRow(fs[0], a.value, b.value, fs[3], fs[4], fs[5], fs[6], fs[7], fs[8], fs[9], fs[10], c.value, fs[12], fs[13], d.value))
  }

  function EncodeRow(r: HashedRow): Text {
    EncodeFields(FieldsOf(r))
  }

  ghost function DecodeRow(t: Text): Option<HashedRow> {
    match DecodeFields(15, t)
    case None => None
    case Some(fs) => if |fs| == 15 then RowOf(fs) else None
  }

  lemma IntFieldInverts(i: Option<int>)
    ensures ParseIntField(IntField(i)) == Some(i)
  {
    if i.Some? {
      AtoiInvertsItoa(i.value);
    }
  }

  lemma IntFieldCanonical(f: Field)
    ensures ParseIntField(f).Some? ==> IntField(ParseIntField(f).value) == f
  {
    if f.Some? {
      AtoiIsCanonical(f.value);
    }
  }

  // Unique decodability, both ways: a byte string decodes to a row iff it is that row's encoding.
  lemma RowDecodesIffEncoded(r: HashedRow, t: Text)
    ensures DecodeRow(t) == Some(r) <==> t == EncodeRow(r)
  {
    EncodedRowDecodes(r);
    DecodedRowIsEncoded(t);
  }

  lemma EncodedRowDecodes(r: HashedRow)
    ensures DecodeRow(EncodeRow(r)) == Some(r)
  {
    DecodeFieldsInverts(FieldsOf(r));
    IntFieldInverts(r.schemaVersion);
    IntFieldInverts(r.hashFormat);
    IntFieldInverts(r.exitCode);
    IntFieldInverts(r.segmentId);
  }

  lemma DecodedRowIsEncoded(t: Text)
    ensures DecodeRow(t).Some? ==> EncodeRow(DecodeRow(t).value) == t
  {
    hide EncodeFields, DecodeFields, ParseIntField, IntField;
    if DecodeRow(t).Some? {
      DecodeFieldsIsCanonical(15, t);
      var fs := DecodeFields(15, t).value;
      IntFieldCanonical(fs[1]);
      IntFieldCanonical(fs[2]);
      IntFieldCanonical(fs[11]);
      IntFieldCanonical(fs[14]);
      assert FieldsOf(DecodeRow(t).value) == fs;
    }
  }

  lemma EncodingIsInjective(r: HashedRow, s: HashedRow)
    requires EncodeRow(r) == EncodeRow(s)
    ensures r == s
  {
    EncodedRowDecodes(r);
    EncodedRowDecodes(s);
  }

  // An encoding starts with a digit or a minus sign, never with the brace of a JSON object.
  lemma EncodingFirstByte(r: HashedRow)
    ensures |EncodeRow(r)| > 0 && (EncodeRow(r)[0] == MINUS || IsDigit(EncodeRow(r)[0]))
  {
    var f := FieldsOf(r)[0];
    if f.Some? {
      DigitsRoundTrip(|f.value|);
    }
    assert EncodeRow(r) == EncodeField(f) + EncodeFields(FieldsOf(r)[1..]);
  }

  // The columns, in declared order.
  lemma EncodedInOrder(r: HashedRow)
    ensures EncodeRow(r) ==
      EncodeField(r.ts) + EncodeField(IntField(r.schemaVersion)) + EncodeField(IntField(r.hashFormat))
      + EncodeField(r.daemonVersion) + EncodeField(r.clientId) + EncodeField(r.repositoryId) + EncodeField(r.method_)
      + EncodeField(r.decision) + EncodeField(r.denialReason) + EncodeField(r.transport) + EncodeField(r.requestId)
      + EncodeField(IntField(r.exitCode)) + EncodeField(r.paramsSha256) + EncodeField(r.previousHash)
      + EncodeField(IntField(r.segmentId))
  {
    hide EncodeField, IntField, EncodeFields;
    var fs := FieldsOf(r);
    FirstField(fs);
    TakeOneMore(fs, 1);
    TakeOneMore(fs, 2);
    TakeOneMore(fs, 3);
    TakeOneMore(fs, 4);
    TakeOneMore(fs, 5);
    TakeOneMore(fs, 6);
    TakeOneMore(fs, 7);
    TakeOneMore(fs, 8);
    TakeOneMore(fs, 9);
    TakeOneMore(fs, 10);
    TakeOneMore(fs, 11);
    TakeOneMore(fs, 12);
    TakeOneMore(fs, 13);
    TakeOneMore(fs, 14);
    assert fs[..15] == fs;
  }

  // The bytes of one field: `-1:` for a null, and otherwise the decimal length, a colon and the
  // octets, so that a null is not an empty text. Integers are written in decimal first.
  lemma FieldBytes(t: Text, i: int)
    ensures EncodeField(None) == [45, 49, 58]
    ensures EncodeField(Some([])) == [48, 58]
    ensures 10 <= |t| < 100 ==> EncodeField(Some(t)) == [48 + |t| / 10, 48 + |t| % 10, 58] + t
    ensures 10 <= i < 100 ==> EncodeField(IntField(Some(i))) == [50, 58, 48 + i / 10, 48 + i % 10]
    ensures 0 < i < 10 ==> EncodeField(IntField(Some(-i))) == [50, 58, 45, 48 + i]
  {
    if 10 <= |t| < 100 {
      assert Digits(|t|) == [48 + |t| / 10] + [48 + |t| % 10];
    }
    if 10 <= i < 100 {
      assert Digits(i) == [48 + i / 10] + [48 + i % 10];
    }
  }

  lemma FirstField(fs: seq<Field>)
    requires |fs| > 0
    ensures EncodeFields(fs[..1]) == EncodeField(fs[0])
  {
    assert fs[..1][1..] == [];
  }

  lemma TakeOneMore(fs: seq<Field>, k: nat)
    requires k < |fs|
    ensures EncodeFields(fs[..k + 1]) == EncodeFields(fs[..k]) + EncodeField(fs[k])
  {
    EncodeFieldsSnoc(fs[..k], fs[k]);
    assert fs[..k] + [fs[k]] == fs[..k + 1];
  }

  // ---------------------------------------------------------------- the encoder

  lemma Assoc3(a: Text, b: Text, c: Text, d: Text)
    ensures a + b + c + d == a + (b + c + d)
  {
  }

  // A byte buffer and the fields written to it so far.
  class Buffer {
    var data: Text
    ghost var fields: seq<Field>

    ghost predicate Valid()
      reads this
    {
      data == EncodeFields(fields)
    }

    constructor ()
      ensures Valid() && fields == []
    {
      data, fields := [], [];
    }

    method EncText(value: Field)
      requires Valid()
      modifies this
      ensures Valid() && fields == old(fields) + [value]
      ensures data == old(data) + EncodeField(value)
    {
      hide Digits, EncodeFields;
      EncodeFieldsSnoc(fields, value);
      fields := fields + [value];
      if value.None? {
        data := data + NULL_FIELD;
        return;
      }
      data := data + Digits(|value.value|);
      data := data + [COLON];
      data := data + value.value;
      Assoc3(old(data), Digits(|value.value|), [COLON], value.value);
    }

    method EncInt(value: Option<int>)
      requires Valid()
      modifies this
      ensures Valid() && fields == old(fields) + [IntField(value)]
      ensures data == old(data) + EncodeField(IntField(value))
    {
      hide Digits, Itoa, EncodeFields;
      EncodeFieldsSnoc(fields, IntField(value));
      fields := fields + [IntField(value)];
      if value.None? {
        data := data + NULL_FIELD;
        return;
      }
      var s := Itoa(value.value);
      data := data + Digits(|s|);
      data := data + [COLON];
      data := data + s;
      Assoc3(old(data), Digits(|s|), [COLON], s);
    }
  }

  lemma {:induction false} EncodeFieldsSnoc(fs: seq<Field>, f: Field)
    ensures EncodeFields(fs + [f]) == EncodeFields(fs) + EncodeField(f)
    decreases |fs|
  {
    hide EncodeField;
    if fs == [] {
      assert (fs + [f])[1..] == [];
    } else {
      EncodeFieldsSnoc(fs[1..], f);
      assert (fs + [f])[1..] == fs[1..] + [f];
    }
  }

  // The byte stream V3RowHash feeds to SHA-256: it is the row's encoding, and no other row's.
  method V3RowBytes(row: HashedRow) returns (t: Text)
    ensures DecodeRow(t) == Some(row)
    ensures t == EncodeRow(row)
  {
    var buf := new Buffer();
    ghost var fs := FieldsOf(row);
    assert buf.fields == fs[..0];
    FirstEight(row, buf);
    LastSeven(row, buf);
    t := buf.data;
    assert fs[..15] == fs;
    EncodedRowDecodes(row);
  }

  method FirstEight(row: HashedRow, buf: Buffer)
    requires buf.Valid() && buf.fields == []
    modifies buf
    ensures buf.Valid() && buf.fields == FieldsOf(row)[..8]
  {
    hide EncodeFields, EncodeField, Itoa, Digits;
    buf.EncText(row.ts);
    buf.EncInt(row.schemaVersion);
    buf.EncInt(row.hashFormat);
    buf.EncText(row.daemonVersion);
    buf.EncText(row.clientId);
    buf.EncText(row.repositoryId);
    buf.EncText(row.method_);
    buf.EncText(row.decision);
  }

  method LastSeven(row: HashedRow, buf: Buffer)
    requires buf.Valid() && buf.fields == FieldsOf(row)[..8]
    modifies buf
    ensures buf.Valid() && buf.fields == FieldsOf(row)[..15]
  {
    hide EncodeFields, EncodeField, Itoa, Digits;
    buf.EncText(row.denialReason);
    buf.EncText(row.transport);
    buf.EncText(row.requestId);
    buf.EncInt(row.exitCode);
    buf.EncText(row.paramsSha256);
    buf.EncText(row.previousHash);
    buf.EncInt(row.segmentId);
  }
}
