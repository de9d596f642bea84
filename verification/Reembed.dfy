/**
  Length-prefixed framing, as used for the fingerprints of the embedded claims: every part is
  preceded by its length in eight big-endian bytes.
 */
module Framing {
  type Byte = x: int | 0 <= x < 256

  // A byte string holds less than 2^63 bytes.
  type Bytes = b: seq<Byte> | |b| < 0x8000_0000_0000_0000 witness []

  function BigEndian(n: nat, width: nat): (r: seq<Byte>)
    ensures |r| == width
  {
    if width == 0 then [] else BigEndian(n / 256, width - 1) + [n % 256]
  }

  function Value(bytes: seq<Byte>): nat {
    if bytes == [] then 0 else Value(bytes[..|bytes| - 1]) * 256 + bytes[|bytes| - 1]
  }

  function Power256(width: nat): nat {
    if width == 0 then 1 else 256 * Power256(width - 1)
  }

  // Reading back the bytes of a number that fits gives the number.
  lemma {:induction false} BigEndianReadsBack(n: nat, width: nat)
    requires n < Power256(width)
    ensures Value(BigEndian(n, width)) == n
  {
    if width > 0 {
      BigEndianReadsBack(n / 256, width - 1);
      var bytes := BigEndian(n, width);
      assert bytes[..|bytes| - 1] == BigEndian(n / 256, width - 1);
    }
  }

  function Frame(part: Bytes): seq<Byte> {
    BigEndian(|part|, 8) + part
  }

  // The bytes fed to the hasher, one part after the other.
  function Stream(parts: seq<Bytes>): seq<Byte> {
    if parts == [] then [] else Frame(parts[0]) + Stream(parts[1..])
  }

  lemma {:induction false} LengthFits(part: Bytes)
    ensures |part| < Power256(8)
  {
    assert Power256(2) == 0x1_0000;
    assert Power256(4) == 0x1_0000_0000;
    assert Power256(6) == 0x1_0000_0000_0000;
  }

  lemma {:induction false} FirstFrames(a: Bytes, b: Bytes, restA: seq<Byte>, restB: seq<Byte>)
    requires Frame(a) + restA == Frame(b) + restB
    ensures a == b && restA == restB
  {
    var all := Frame(a) + restA;
    assert all[..8] == BigEndian(|a|, 8) && (Frame(b) + restB)[..8] == BigEndian(|b|, 8);
    LengthFits(a);
    LengthFits(b);
    BigEndianReadsBack(|a|, 8);
    BigEndianReadsBack(|b|, 8);
    assert all[8..8 + |a|] == a && (Frame(b) + restB)[8..8 + |b|] == b;
    assert all[8 + |a|..] == restA && (Frame(b) + restB)[8 + |b|..] == restB;
  }

  // No two lists of parts give the same stream.
  lemma {:induction false} StreamIsInjective(a: seq<Bytes>, b: seq<Bytes>)
    requires Stream(a) == Stream(b)
    ensures a == b
  {
    if a != [] && b != [] {
      FirstFrames(a[0], b[0], Stream(a[1..]), Stream(b[1..]));
      StreamIsInjective(a[1..], b[1..]);
      assert a == [a[0]] + a[1..] && b == [b[0]] + b[1..];
    }
  }

  lemma {:induction false} StreamAppend(a: seq<Bytes>, b: seq<Bytes>)
    ensures Stream(a + b) == Stream(a) + Stream(b)
  {
    if a == [] {
      assert a + b == b;
    } else {
      StreamAppend(a[1..], b);
      assert (a + b)[0] == a[0] && (a + b)[1..] == a[1..] + b;
    }
  }

  /******* Decimal text *******/

  function Digits(n: nat): (r: seq<Byte>)
    ensures 0 < |r| <= n / 2 + 1 && r[0] != 45
  {
    if n < 10 then [48 + n] else Digits(n / 10) + [48 + n % 10]
  }

  // The integers that a database column holds.
  type Integer64 = x: int | -0x8000_0000_0000_0000 <= x < 0x8000_0000_0000_0000

  function Decimal(n: Integer64): Bytes {
    if n < 0 then [45] + Digits(-(n as int)) else Digits(n)
  }

  function NumberOf(digits: seq<Byte>): int {
    if digits == [] then 0 else 10 * NumberOf(digits[..|digits| - 1]) + (digits[|digits| - 1] as int - 48)
  }

  // The text is that of the number in base ten, without leading zeros.
  lemma {:induction false} DigitsReadBack(n: nat)
    ensures NumberOf(Digits(n)) == n && (forall d | d in Digits(n) :: 48 <= d < 58)
    ensures n > 0 ==> Digits(n)[0] != 48
  {
    var digits := Digits(n);
    if n >= 10 {
      DigitsReadBack(n / 10);
      assert digits[..|digits| - 1] == Digits(n / 10);
    } else {
      assert digits[..|digits| - 1] == [];
    }
  }

  lemma {:induction false} DigitsInjective(m: nat, n: nat)
    requires Digits(m) == Digits(n)
    ensures m == n
  {
    var a, b := Digits(m), Digits(n);
    assert a[|a| - 1] == b[|b| - 1] && a[..|a| - 1] == b[..|b| - 1];
    if m >= 10 && n >= 10 {
      assert a[..|a| - 1] == Digits(m / 10) && b[..|b| - 1] == Digits(n / 10);
      DigitsInjective(m / 10, n / 10);
    }
  }

  lemma {:induction false} DecimalInjective(m: Integer64, n: Integer64)
    requires Decimal(m) == Decimal(n)
    ensures m == n
  {
    if m < 0 && n < 0 {
      var a, b := -(m as int), -(n as int);
      assert Decimal(m)[1..] == Digits(a) && Decimal(n)[1..] == Digits(b);
      DigitsInjective(a, b);
    } else if m >= 0 && n >= 0 {
      DigitsInjective(m, n);
    }
  }

  /******* UTF-8 *******/

  function CodeUnits(c: char): (r: Bytes)
    ensures 1 <= |r| <= 4
  {
    var n := c as int;
    if n < 0x80 then [n]
    else if n < 0x800 then [0xC0 + n / 0x40, 0x80 + n % 0x40]
    else if n < 0x1_0000 then [0xE0 + n / 0x40 / 0x40, 0x80 + n / 0x40 % 0x40, 0x80 + n % 0x40]
    else [0xF0 + n / 0x40 / 0x40 / 0x40, 0x80 + n / 0x40 / 0x40 % 0x40, 0x80 + n / 0x40 % 0x40, 0x80 + n % 0x40]
  }

  function CodePoint(units: seq<int>): int
    requires 1 <= |units| <= 4
  {
    if |units| == 1 then units[0]
    else if |units| == 2 then (units[0] - 0xC0) * 0x40 + (units[1] - 0x80)
    else if |units| == 3 then ((units[0] - 0xE0) * 0x40 + (units[1] - 0x80)) * 0x40 + (units[2] - 0x80)
    else (((units[0] - 0xF0) * 0x40 + (units[1] - 0x80)) * 0x40 + (units[2] - 0x80)) * 0x40 + (units[3] - 0x80)
  }

  // The units read back as the character, carry the marks of UTF-8, and are as few as can be.
  lemma {:induction false} CodeUnitsReadBack(c: char)
    ensures CodePoint(CodeUnits(c)) == c as int
    ensures forall k | 0 < k < |CodeUnits(c)| :: 0x80 <= CodeUnits(c)[k] < 0xC0
    ensures var first := CodeUnits(c)[0];
            match |CodeUnits(c)|
            case 1 => first < 0x80
            case 2 => 0xC0 <= first < 0xE0 && c as int >= 0x80
            case 3 => 0xE0 <= first < 0xF0 && c as int >= 0x800
            case _ => 0xF0 <= first < 0xF8 && c as int >= 0x1_0000
  {
  }

  function Encode(s: string): (r: seq<Byte>)
    ensures |r| <= 4 * |s|
  {
    if s == "" then [] else CodeUnits(s[0]) + Encode(s[1..])
  }

  // Texts are short enough for their encodings to be byte strings.
  type Text = s: string | |s| < 0x1000_0000_0000_0000

  function Utf8(t: Text): Bytes { Encode(t) }

  // The first code unit tells how many there are, and together they tell the character.
  lemma {:induction false} CodeUnitsTell(c: char, d: char, restC: seq<Byte>, restD: seq<Byte>)
    requires CodeUnits(c) + restC == CodeUnits(d) + restD
    ensures c == d && restC == restD
  {
    var a, b := CodeUnits(c), CodeUnits(d);
    assert (a + restC)[0] == a[0] && (b + restD)[0] == b[0];
    SameWidth(c, d);
    assert (a + restC)[..|a|] == a && (b + restD)[..|b|] == b;
    assert (a + restC)[|a|..] == restC && (b + restD)[|b|..] == restD;
    CodeUnitsReadBack(c);
    CodeUnitsReadBack(d);
  }

  lemma {:induction false} SameWidth(c: char, d: char)
    requires CodeUnits(c)[0] == CodeUnits(d)[0]
    ensures |CodeUnits(c)| == |CodeUnits(d)|
  {
  }

  lemma {:induction false} EncodeIsInjective(s: string, t: string)
    requires Encode(s) == Encode(t)
    ensures s == t
  {
    if s != "" && t != "" {
      CodeUnitsTell(s[0], t[0], Encode(s[1..]), Encode(t[1..]));
      EncodeIsInjective(s[1..], t[1..]);
      assert s == [s[0]] + s[1..] && t == [t[0]] + t[1..];
    }
  }

  /******* Joining without lengths *******/

  function Join(parts: seq<string>): string {
    if parts == [] then "" else parts[0] + Join(parts[1..])
  }

  // Without the lengths two lists of the same size can run together: their joins are equal for
  // different lists exactly when the lengths differ somewhere.
  lemma {:induction false} JoinTellsWithLengths(a: seq<string>, b: seq<string>)
    requires |a| == |b| && Join(a) == Join(b)
    ensures a == b <==> forall i | 0 <= i < |a| :: |a[i]| == |b[i]|
  {
    if a != [] && forall i | 0 <= i < |a| :: |a[i]| == |b[i]| {
      var n := |a[0]|;
      assert |b[0]| == n;
      assert Join(a)[..n] == a[0] && Join(b)[..n] == b[0];
      assert Join(a)[n..] == Join(a[1..]) && Join(b)[n..] == Join(b[1..]);
      JoinTellsWithLengths(a[1..], b[1..]);
      assert a == [a[0]] + a[1..] && b == [b[0]] + b[1..];
    }
  }

  lemma {:induction false} JoinOfTwo(x: string, y: string)
    ensures Join([x, y]) == x + y
  {
    assert [x, y][1..] == [y] && [y][1..] == [];
    assert Join([y]) == y + "" == y;
  }
}

/**
  Re-embedding the active claims: the vectors are computed without holding a lock, and written
  only when a guard over everything they depend on is unchanged once the lock is held.
 */
module Reembedding {
  import opened Common
  import opened Sequences
  import opened Orders
  import opened Framing

  datatype Status = Active | Inactive(name: string)

  // others stands for all columns that the procedure never reads.
  datatype Row = Row(id: Text, status: Status, indexText: Option<Text>, dense: Option<Bytes>,
                     model: Option<Text>, dim: Option<Integer64>, others: string)

  datatype Target = Target(id: Text, text: Text, dense: Bytes, model: Option<Text>, dim: Option<Integer64>)

  // The two digests, of a single embedding and of everything hashed; taken to be injective.
  datatype Codec = Codec(digest: Bytes -> Bytes, fingerprint: seq<Byte> -> string)

  ghost predicate IsInjective(c: Codec) {
    && (forall s: Bytes, t: Bytes | c.digest(s) == c.digest(t) :: s == t)
    && (forall s: seq<Byte>, t: seq<Byte> | c.fingerprint(s) == c.fingerprint(t) :: s == t)
  }

  function Characters(bytes: seq<Byte>): (s: string)
    ensures |s| == |bytes| && forall i | 0 <= i < |s| :: s[i] == bytes[i] as char
  {
    seq(|bytes|, i requires 0 <= i < |bytes| => bytes[i] as char)
  }

  // There are such digests.
  lemma {:induction false} InjectiveCodecExists()
    ensures exists c :: IsInjective(c)
  {
    var c := Codec(b => b, Characters);
    forall s: seq<Byte>, t: seq<Byte> | c.fingerprint(s) == c.fingerprint(t) ensures s == t {
      forall i | 0 <= i < |s| ensures s[i] == t[i] {
        assert Characters(s)[i] == Characters(t)[i];
        assert (s[i] as char) as int == (t[i] as char) as int;
      }
    }
    assert IsInjective(c);
  }

  function TextOf(text: Option<Text>): Text {
    if text.None? then "" else text.value
  }

  function DimensionText(dim: Option<Integer64>): Bytes {
    if dim.None? || dim.value == 0 then [] else Decimal(dim.value)
  }

  predicate IsTarget(row: Row) { row.status.Active? && row.dense.Some? }

  function TargetOf(row: Row): Target
    requires IsTarget(row)
  {
    Target(row.id, TextOf(row.indexText), row.dense.value, row.model, row.dim)
  }

  // The active rows with an embedding, in the order of the table.
  function Targets(rows: seq<Row>): seq<Target> {
    if rows == [] then []
    else (if IsTarget(rows[0]) then [TargetOf(rows[0])] else []) + Targets(rows[1..])
  }

  function GuardParts(codec: Codec, t: Target): seq<Bytes> {
    [Utf8(t.id), Utf8(t.text), Utf8(TextOf(t.model)), DimensionText(t.dim),
     codec.digest(t.dense)]
  }

  function AllGuardParts(codec: Codec, targets: seq<Target>): seq<Bytes> {
    if targets == [] then [] else GuardParts(codec, targets[0]) + AllGuardParts(codec, targets[1..])
  }

  function EmbeddingParts(codec: Codec, t: Target): seq<Bytes> {
    [Utf8(t.id), Utf8(TextOf(t.model)), DimensionText(t.dim), codec.digest(t.dense)]
  }

  function AllEmbeddingParts(codec: Codec, targets: seq<Target>): seq<Bytes> {
    if targets == [] then [] else EmbeddingParts(codec, targets[0]) + AllEmbeddingParts(codec, targets[1..])
  }

  function Guard(codec: Codec, targets: seq<Target>): string {
    codec.fingerprint(Stream(AllGuardParts(codec, targets)))
  }

  // Equal up to what the guard does not see: no model against the empty one, no dimension
  // against zero.
  predicate SameTarget(t: Target, u: Target) {
    && t.id == u.id && t.text == u.text && t.dense == u.dense && TextOf(t.model) == TextOf(u.model)
    && (if t.dim.None? then 0 else t.dim.value) == (if u.dim.None? then 0 else u.dim.value)
  }

  predicate SameTargets(a: seq<Target>, b: seq<Target>) {
    |a| == |b| && forall i | 0 <= i < |a| :: SameTarget(a[i], b[i])
  }

  lemma {:induction false} PartsTellTargets(codec: Codec, t: Target, u: Target)
    requires IsInjective(codec)
    ensures GuardParts(codec, t) == GuardParts(codec, u) <==> SameTarget(t, u)
  {
    var a, b := GuardParts(codec, t), GuardParts(codec, u);
    DimensionTells(t.dim, u.dim);
    if a[0] == b[0] { EncodeIsInjective(t.id, u.id); }
    if a[1] == b[1] { EncodeIsInjective(t.text, u.text); }
    if a[2] == b[2] { EncodeIsInjective(TextOf(t.model), TextOf(u.model)); }
    assert a == b <==> a[0] == b[0] && a[1] == b[1] && a[2] == b[2] && a[3] == b[3] && a[4] == b[4];
  }

  lemma {:induction false} DimensionTells(m: Option<Integer64>, n: Option<Integer64>)
    ensures DimensionText(m) == DimensionText(n)
            <==> (if m.None? then 0 else m.value) == (if n.None? then 0 else n.value)
  {
    if m.Some? && n.Some? && Decimal(m.value) == Decimal(n.value) { DecimalInjective(m.value, n.value); }
  }

  lemma {:induction false} AllPartsTellTargets(codec: Codec, a: seq<Target>, b: seq<Target>)
    requires IsInjective(codec)
    ensures AllGuardParts(codec, a) == AllGuardParts(codec, b) <==> SameTargets(a, b)
  {
    if a != [] && b != [] {
      hide IsInjective;
      PartsTellTargets(codec, a[0], b[0]);
      AllPartsTellTargets(codec, a[1..], b[1..]);
      HeadsAndTails(GuardParts(codec, a[0]), AllGuardParts(codec, a[1..]),
                    GuardParts(codec, b[0]), AllGuardParts(codec, b[1..]));
      assert SameTargets(a, b) <==> SameTarget(a[0], b[0]) && SameTargets(a[1..], b[1..]) by {
        if SameTarget(a[0], b[0]) && SameTargets(a[1..], b[1..]) {
          forall i | 0 <= i < |a| ensures SameTarget(a[i], b[i]) {
            if i > 0 { assert SameTarget(a[1..][i - 1], b[1..][i - 1]); }
          }
        }
      }
    }
  }

  lemma {:induction false} HeadsAndTails<T>(a: seq<T>, restA: seq<T>, b: seq<T>, restB: seq<T>)
    requires |a| == |b|
    ensures a + restA == b + restB <==> a == b && restA == restB
  {
    if a + restA == b + restB {
      assert (a + restA)[..|a|] == a && (b + restB)[..|b|] == b;
      assert (a + restA)[|a|..] == restA && (b + restB)[|b|..] == restB;
    }
  }

  // The guard changes exactly when some target does.
  lemma {:induction false} GuardTellsTargets(codec: Codec, a: seq<Target>, b: seq<Target>)
    requires IsInjective(codec)
    ensures Guard(codec, a) == Guard(codec, b) <==> SameTargets(a, b)
  {
    AllPartsTellTargets(codec, a, b);
    if Guard(codec, a) == Guard(codec, b) {
      StreamIsInjective(AllGuardParts(codec, a), AllGuardParts(codec, b));
    }
  }

  // Equal up to what the embedding fingerprint does not see: the text, and the same as the guard.
  predicate SameEmbedding(t: Target, u: Target) {
    && t.id == u.id && t.dense == u.dense && TextOf(t.model) == TextOf(u.model)
    && (if t.dim.None? then 0 else t.dim.value) == (if u.dim.None? then 0 else u.dim.value)
  }

  predicate SameEmbeddings(a: seq<Target>, b: seq<Target>) {
    |a| == |b| && forall i | 0 <= i < |a| :: SameEmbedding(a[i], b[i])
  }

  lemma {:induction false} PartsTellEmbeddings(codec: Codec, t: Target, u: Target)
    requires IsInjective(codec)
    ensures EmbeddingParts(codec, t) == EmbeddingParts(codec, u) <==> SameEmbedding(t, u)
  {
    var a, b := EmbeddingParts(codec, t), EmbeddingParts(codec, u);
    DimensionTells(t.dim, u.dim);
    if a[0] == b[0] { EncodeIsInjective(t.id, u.id); }
    if a[1] == b[1] { EncodeIsInjective(TextOf(t.model), TextOf(u.model)); }
    assert a == b <==> a[0] == b[0] && a[1] == b[1] && a[2] == b[2] && a[3] == b[3];
  }

  lemma {:induction false} AllPartsTellEmbeddings(codec: Codec, a: seq<Target>, b: seq<Target>)
    requires IsInjective(codec)
    ensures AllEmbeddingParts(codec, a) == AllEmbeddingParts(codec, b) <==> SameEmbeddings(a, b)
  {
    if a != [] && b != [] {
      hide IsInjective;
      PartsTellEmbeddings(codec, a[0], b[0]);
      AllPartsTellEmbeddings(codec, a[1..], b[1..]);
      HeadsAndTails(EmbeddingParts(codec, a[0]), AllEmbeddingParts(codec, a[1..]),
                    EmbeddingParts(codec, b[0]), AllEmbeddingParts(codec, b[1..]));
      assert SameEmbeddings(a, b) <==> SameEmbedding(a[0], b[0]) && SameEmbeddings(a[1..], b[1..]) by {
        if SameEmbedding(a[0], b[0]) && SameEmbeddings(a[1..], b[1..]) {
          forall i | 0 <= i < |a| ensures SameEmbedding(a[i], b[i]) {
            if i > 0 { assert SameEmbedding(a[1..][i - 1], b[1..][i - 1]); }
          }
        }
      }
    }
  }

  // The embedding fingerprint changes exactly when an identifier, a vector, a model or a dimension
  // does.
  lemma {:induction false} FingerprintTellsEmbeddings(codec: Codec, first: seq<Row>, a: seq<Row>, b: seq<Row>)
    requires IsInjective(codec)
    ensures SnapshotOf(codec, first, a).embeddings == SnapshotOf(codec, first, b).embeddings
            <==> SameEmbeddings(Targets(a), Targets(b))
  {
    AllPartsTellEmbeddings(codec, Targets(a), Targets(b));
    var x, y := AllEmbeddingParts(codec, Targets(a)), AllEmbeddingParts(codec, Targets(b));
    if codec.fingerprint(Stream(x)) == codec.fingerprint(Stream(y)) { StreamIsInjective(x, y); }
  }

  /******* Snapshots *******/

  datatype Snapshot = Snapshot(activeIds: seq<Text>, targets: seq<Target>, embeddings: string, guard: string)

  datatype Report = Report(activeCount: nat, activeFingerprint: string, targetCount: nat,
                           targetFingerprint: string, embeddingFingerprint: string)

  function ActiveIds(rows: seq<Row>): seq<Text> {
    if rows == [] then []
    else (if rows[0].status.Active? then [rows[0].id] else []) + ActiveIds(rows[1..])
  }

  // Exactly the identifiers of the active rows, each row once.
  lemma {:induction false} ActiveIdsAreThose(rows: seq<Row>)
    ensures forall id :: id in ActiveIds(rows) <==> exists i :: 0 <= i < |rows| && IsActive(rows[i], id)
    ensures |ActiveIds(rows)| == |set i | 0 <= i < |rows| && rows[i].status.Active?|
  {
    ActiveIdsFrom(rows, 0);
    assert rows[0..] == rows;
    forall id ensures id in ActiveIds(rows) <==> exists i :: 0 <= i < |rows| && IsActive(rows[i], id) {
      assert id in ActiveIds(rows[0..]) <==> exists i :: 0 <= i < |rows| && IsActive(rows[i], id);
    }
    assert ActiveFrom(rows, 0) == set i | 0 <= i < |rows| && rows[i].status.Active?;
  }

  predicate IsActive(row: Row, id: Text) { row.status.Active? && row.id == id }

  function ActiveFrom(rows: seq<Row>, k: nat): set<int> {
    set i | k <= i < |rows| && rows[i].status.Active?
  }

  lemma {:induction false} ActiveIdsFrom(rows: seq<Row>, k: nat)
    requires k <= |rows|
    ensures forall id :: id in ActiveIds(rows[k..]) <==> exists i :: k <= i < |rows| && IsActive(rows[i], id)
    ensures |ActiveIds(rows[k..])| == |ActiveFrom(rows, k)|
    decreases |rows| - k
  {
    if k < |rows| {
      ActiveIdsFrom(rows, k + 1);
      OneRowMore(rows, k);
      hide ActiveIds, ActiveFrom;
      forall id ensures id in ActiveIds(rows[k..]) <==> exists i :: k <= i < |rows| && IsActive(rows[i], id) {
        assert id in ActiveIds(rows[k..]) <==> IsActive(rows[k], id) || id in ActiveIds(rows[k + 1..]);
      }
    } else {
      assert ActiveFrom(rows, k) == {};
    }
  }

  lemma {:induction false} OneRowMore(rows: seq<Row>, k: nat)
    requires k < |rows|
    ensures ActiveIds(rows[k..]) == (if rows[k].status.Active? then [rows[k].id] else []) + ActiveIds(rows[k + 1..])
    ensures |ActiveFrom(rows, k)| == |ActiveFrom(rows, k + 1)| + if rows[k].status.Active? then 1 else 0
  {
    assert rows[k..][0] == rows[k] && rows[k..][1..] == rows[k + 1..];
    assert ActiveFrom(rows, k) == ActiveFrom(rows, k + 1) + if rows[k].status.Active? then {k} else {};
  }

  function TargetIds(targets: seq<Target>): seq<Text> {
    if targets == [] then [] else [targets[0].id] + TargetIds(targets[1..])
  }

  // The identifiers and the targets are two reads: of first, and of the table as it is by then.
  function SnapshotOf(codec: Codec, first: seq<Row>, rows: seq<Row>): Snapshot {
    var targets := Targets(rows);
    Snapshot(ActiveIds(first), targets, codec.fingerprint(Stream(AllEmbeddingParts(codec, targets))),
             Guard(codec, targets))
  }

  // Identifiers are fingerprinted without their lengths.
  function IdFingerprint(codec: Codec, ids: seq<Text>): string {
    codec.fingerprint(Encode(Join(ids)))
  }

  // Count and fingerprint together tell two lists of identifiers apart exactly when no shift of
  // a boundary turns one into the other: equal ones are of equal lists iff all lengths agree.
  lemma {:induction false} FingerprintTellsWithLengths(codec: Codec, a: seq<Text>, b: seq<Text>)
    requires IsInjective(codec)
    ensures a == b <==> && |a| == |b| && IdFingerprint(codec, a) == IdFingerprint(codec, b)
                        && forall i | 0 <= i < |a| && i < |b| :: |a[i]| == |b[i]|
  {
    if |a| == |b| && IdFingerprint(codec, a) == IdFingerprint(codec, b) {
      EncodeIsInjective(Join(a), Join(b));
      JoinTellsWithLengths(a, b);
    }
  }

  // In the order of the queries, no identifier twice.
  predicate IsAscending(ids: seq<Text>) {
    forall i, j | 0 <= i < j < |ids| :: StrLess(ids[i], ids[j])
  }

  // Two lists of identifiers with one count and one fingerprint, whatever the digest.
  lemma {:induction false} FingerprintsCollide(codec: Codec, x: Text, y: Text, z: Text)
    requires y != "" && |x + y| < 0x1000_0000_0000_0000 && |y + z| < 0x1000_0000_0000_0000
    requires IsAscending([x + y, z]) && IsAscending([x, y + z])
    ensures [x + y, z] != [x, y + z]
    ensures IdFingerprint(codec, [x + y, z]) == IdFingerprint(codec, [x, y + z])
  {
    assert |x + y| != |x|;
    assert [x + y, z][0] != [x, y + z][0];
    JoinOfTwo(x + y, z);
    JoinOfTwo(x, y + z);
    assert (x + y) + z == x + (y + z);
  }

  lemma {:induction false} AscendingIdsCollide(codec: Codec)
    ensures exists a: seq<Text>, b: seq<Text> ::
              && a != b && |a| == |b| && IsAscending(a) && IsAscending(b)
              && IdFingerprint(codec, a) == IdFingerprint(codec, b)
  {
    var x: Text, y: Text, z: Text := "a", "b", "c";
    assert x + y == "ab" && y + z == "bc";
    assert IsAscending([x + y, z]) && IsAscending([x, y + z]);
    FingerprintsCollide(codec, x, y, z);
  }

  // Identifiers of one common length, as those that are generated, never collide.
  lemma {:induction false} EqualLengthsNeverCollide(codec: Codec, a: seq<Text>, b: seq<Text>, n: nat)
    requires IsInjective(codec) && n > 0
    requires (forall id | id in a :: |id| == n) && forall id | id in b :: |id| == n
    ensures a == b <==> IdFingerprint(codec, a) == IdFingerprint(codec, b)
  {
    if IdFingerprint(codec, a) == IdFingerprint(codec, b) {
      EncodeIsInjective(Join(a), Join(b));
      JoinLength(a, n);
      JoinLength(b, n);
      if |a| < |b| { TimesGrows(|a|, |b|, n); }
      if |b| < |a| { TimesGrows(|b|, |a|, n); }
      FingerprintTellsWithLengths(codec, a, b);
    }
  }

  lemma {:induction false} JoinLength(parts: seq<string>, n: nat)
    requires forall i | 0 <= i < |parts| :: |parts[i]| == n
    ensures |Join(parts)| == |parts| * n
  {
    if parts != [] {
      JoinLength(parts[1..], n);
      assert |Join(parts)| == n + |Join(parts[1..])|;
      assert n + (|parts| - 1) * n == |parts| * n;
    } else {
      assert 0 * n == 0;
    }
  }

  lemma {:induction false} TimesGrows(a: nat, b: nat, n: nat)
    requires a < b && n > 0
    ensures a * n < b * n
  {
    assert b * n == a * n + (b - a) * n;
  }

  function ReportOf(codec: Codec, s: Snapshot): Report {
    Report(|s.activeIds|, IdFingerprint(codec, s.activeIds), |s.targets|, IdFingerprint(codec, TargetIds(s.targets)),
           s.embeddings)
  }

  lemma {:induction false} NextTarget(codec: Codec, targets: seq<Target>, i: nat)
    requires i < |targets|
    ensures Stream(AllGuardParts(codec, targets[i..]))
            == Stream(GuardParts(codec, targets[i])) + Stream(AllGuardParts(codec, targets[i + 1..]))
    ensures Stream(AllEmbeddingParts(codec, targets[i..]))
            == Stream(EmbeddingParts(codec, targets[i])) + Stream(AllEmbeddingParts(codec, targets[i + 1..]))
  {
    hide Stream;
    assert targets[i..][0] == targets[i] && targets[i..][1..] == targets[i + 1..];
    StreamAppend(GuardParts(codec, targets[i]), AllGuardParts(codec, targets[i + 1..]));
    StreamAppend(EmbeddingParts(codec, targets[i]), AllEmbeddingParts(codec, targets[i + 1..]));
  }

  // A report is that of the table as it was at the second read exactly if the active claims did not
  // change between the two.
  lemma {:induction false} ReportIsOfOneTable(codec: Codec, first: seq<Row>, rows: seq<Row>, n: nat)
    requires IsInjective(codec) && n > 0
    requires forall row | row in first + rows :: |row.id| == n
    ensures ReportOf(codec, SnapshotOf(codec, first, rows)) == ReportOf(codec, SnapshotOf(codec, rows, rows))
            <==> ActiveIds(first) == ActiveIds(rows)
  {
    hide IdFingerprint, Stream, IsInjective;
    ActiveIdsAreThose(first);
    ActiveIdsAreThose(rows);
    EqualLengthsNeverCollide(codec, ActiveIds(first), ActiveIds(rows), n);
  }

  lemma {:induction false} TargetIdsAt(targets: seq<Target>)
    ensures |TargetIds(targets)| == |targets| && forall i | 0 <= i < |targets| :: TargetIds(targets)[i] == targets[i].id
  {
    if targets != [] { TargetIdsAt(targets[1..]); }
  }

  // What two reports tell: the counts are those of the active claims and of the targets, and each
  // fingerprint agrees exactly if what it covers does.
  lemma {:induction false} ReportsTell(codec: Codec, a: Snapshot, b: Snapshot, n: nat)
    requires IsInjective(codec) && n > 0
    requires forall id | id in a.activeIds + b.activeIds :: |id| == n
    requires forall t | t in a.targets + b.targets :: |t.id| == n
    ensures var x, y := ReportOf(codec, a), ReportOf(codec, b);
            && x.activeCount == |a.activeIds| && x.targetCount == |a.targets|
            && (x.activeFingerprint == y.activeFingerprint <==> a.activeIds == b.activeIds)
            && (x.targetFingerprint == y.targetFingerprint <==> TargetIds(a.targets) == TargetIds(b.targets))
            && (x.embeddingFingerprint == y.embeddingFingerprint <==> a.embeddings == b.embeddings)
  {
    hide IdFingerprint, IsInjective;
    TargetIdsAt(a.targets);
    TargetIdsAt(b.targets);
    EqualLengthsNeverCollide(codec, a.activeIds, b.activeIds, n);
    EqualLengthsNeverCollide(codec, TargetIds(a.targets), TargetIds(b.targets), n);
  }

  // A claim that becomes a target between the reads: more targets are reported than active claims.
  lemma {:induction false} ReportCanMix(codec: Codec, row: Row)
    requires IsTarget(row)
    ensures var report := ReportOf(codec, SnapshotOf(codec, [], [row]));
            report.targetCount == 1 && report.activeCount == 0
  {
    assert Targets([row]) == [TargetOf(row)] + Targets([]);
  }

  // The loop over the targets, feeding the hashers part by part.
  method TakeSnapshot(codec: Codec, first: seq<Row>, rows: seq<Row>) returns (s: Snapshot)
    ensures s == SnapshotOf(codec, first, rows)
  {
    hide Stream, GuardParts, EmbeddingParts, Targets, ActiveIds, AllGuardParts, AllEmbeddingParts;
    var targets := Targets(rows);
    var embeddings: seq<Byte>, guard: seq<Byte> := [], [];
    assert targets[0..] == targets && targets[|targets|..] == [];
    for i := 0 to |targets|
      invariant embeddings + Stream(AllEmbeddingParts(codec, targets[i..])) == Stream(AllEmbeddingParts(codec, targets))
      invariant guard + Stream(AllGuardParts(codec, targets[i..])) == Stream(AllGuardParts(codec, targets))
    {
      NextTarget(codec, targets, i);
      embeddings := Feed(embeddings, EmbeddingParts(codec, targets[i]));
      guard := Feed(guard, GuardParts(codec, targets[i]));
    }
    StreamOfNothing(codec);
    assert guard + [] == guard && embeddings + [] == embeddings;
    s := Snapshot(ActiveIds(first), targets, codec.fingerprint(embeddings), codec.fingerprint(guard));
  }

  lemma {:induction false} StreamOfNothing(codec: Codec)
    ensures Stream(AllGuardParts(codec, [])) == [] && Stream(AllEmbeddingParts(codec, [])) == []
  {
  }

  method Feed(hashed: seq<Byte>, parts: seq<Bytes>) returns (r: seq<Byte>)
    ensures r == hashed + Stream(parts)
  {
    r := hashed;
    for i := 0 to |parts|
      invariant r + Stream(parts[i..]) == hashed + Stream(parts)
    {
      assert parts[i..][0] == parts[i] && parts[i..][1..] == parts[i + 1..];
      r := r + BigEndian(|parts[i]|, 8);
      r := r + parts[i];
    }
  }

  /******* Embedding *******/

  // embedBatch is the embedder: it may raise, and it may return any number of vectors.
  datatype Embedder = Embedder(model: Text, dim: Integer64, maxBatchSize: int,
                               embedBatch: seq<string> -> Option<seq<Bytes>>)

  // The embedder turns each text into its own vector.
  ghost predicate Embeds(e: Embedder, embed: string -> Bytes) {
    forall texts: seq<string> | e.embedBatch(texts).Some? ::
      && |e.embedBatch(texts).value| == |texts|
      && forall i | 0 <= i < |texts| :: e.embedBatch(texts).value[i] == embed(texts[i])
  }

  function Texts(targets: seq<Target>): (r: seq<string>)
    ensures |r| == |targets| && forall i | 0 <= i < |targets| :: r[i] == targets[i].text
  {
    seq(|targets|, i requires 0 <= i < |targets| => targets[i].text)
  }

  lemma {:induction false} BatchEmbeds(e: Embedder, embed: string -> Bytes, targets: seq<Target>, start: nat, end: nat)
    requires start <= end <= |targets| && Embeds(e, embed) && e.embedBatch(Texts(targets[start..end])).Some?
    ensures var batch := e.embedBatch(Texts(targets[start..end])).value;
            |batch| == end - start && forall i | 0 <= i < |batch| :: batch[i] == embed(targets[start + i].text)
  {
  }

  function BatchSize(e: Embedder): (n: nat)
    ensures n > 0 && n >= e.maxBatchSize && (n == 1 || n == e.maxBatchSize)
  {
    if e.maxBatchSize < 1 then 1 else e.maxBatchSize
  }

  // The batch that starts at a target.
  function Batch(e: Embedder, targets: seq<Target>, start: nat): seq<Target>
    requires start <= |targets|
  {
    targets[start..if start + BatchSize(e) < |targets| then start + BatchSize(e) else |targets|]
  }

  // The embedder raises on a batch of the targets.
  ghost predicate RaisesAt(e: Embedder, targets: seq<Target>, k: nat) {
    k * BatchSize(e) < |targets| && e.embedBatch(Texts(Batch(e, targets, k * BatchSize(e)))).None?
  }

  ghost predicate Raises(e: Embedder, targets: seq<Target>) {
    exists k :: RaisesAt(e, targets, k)
  }

  method EmbedTargets(e: Embedder, targets: seq<Target>, ghost embed: string -> Bytes)
    returns (r: Option<seq<Bytes>>)
    ensures r.None? <==> Raises(e, targets)
    ensures r.Some? && Embeds(e, embed) ==>
              && |r.value| == |targets|
              && forall i | 0 <= i < |targets| :: r.value[i] == embed(targets[i].text)
  {
    hide Embeds, RaisesAt;
    var batchSize := BatchSize(e);
    var vectors: seq<Bytes> := [];
    var start := 0;
    ghost var k := 0;
    while start < |targets|
      invariant 0 <= start <= |targets| && (start < |targets| ==> start == k * batchSize)
      invariant forall j: nat | j < k :: !RaisesAt(e, targets, j)
      invariant start == |targets| ==> k * batchSize >= |targets|
      invariant Embeds(e, embed) ==> |vectors| == start && forall i | 0 <= i < start ::
          vectors[i] == embed(targets[i].text)
    {
      var end := if start + batchSize < |targets| then start + batchSize else |targets|;
      var batch := e.embedBatch(Texts(targets[start..end]));
      BatchRaises(e, targets, k);
      if batch.None? { return None; }
      if Embeds(e, embed) { BatchEmbeds(e, embed, targets, start, end); }
      vectors := vectors + batch.value;
      start, k := end, k + 1;
    }
    NoMoreBatches(e, targets, k);
    r := Some(vectors);
  }

  lemma {:induction false} BatchRaises(e: Embedder, targets: seq<Target>, k: nat)
    requires k * BatchSize(e) < |targets|
    ensures RaisesAt(e, targets, k) <==> e.embedBatch(Texts(Batch(e, targets, k * BatchSize(e)))).None?
    ensures (k + 1) * BatchSize(e) == k * BatchSize(e) + BatchSize(e)
  {
  }

  lemma {:induction false} NoMoreBatches(e: Embedder, targets: seq<Target>, k: nat)
    requires k * BatchSize(e) >= |targets| && forall j: nat | j < k :: !RaisesAt(e, targets, j)
    ensures !Raises(e, targets)
  {
    forall j: nat ensures !RaisesAt(e, targets, j) {
      if j >= k { TimesRises(k, j, BatchSize(e)); }
    }
  }

  lemma {:induction false} TimesRises(k: nat, j: nat, n: nat)
    requires k <= j
    ensures k * n <= j * n
  {
    if k < j && n > 0 { TimesGrows(k, j, n); }
  }

  /******* The update *******/

  function SetEmbedding(row: Row, vector: Bytes, e: Embedder): Row {
    row.(dense := Some(vector), model := Some(e.model), dim := Some(e.dim))
  }

  // UPDATE ... WHERE id = ...
  function UpdateWhere(rows: seq<Row>, id: Text, vector: Bytes, e: Embedder): (r: seq<Row>)
    ensures |r| == |rows|
    ensures forall i | 0 <= i < |rows| :: r[i] == if rows[i].id == id then SetEmbedding(rows[i], vector, e) else rows[i]
  {
    if rows == [] then []
    else [if rows[0].id == id then SetEmbedding(rows[0], vector, e)
        else rows[0]] + UpdateWhere(rows[1..], id, vector, e)
  }

  ghost predicate RowUpdated(targets: seq<Target>, vectors: seq<Bytes>, n: nat, e: Embedder, row: Row, row': Row)
    requires n <= |targets| == |vectors|
  {
    if exists j :: 0 <= j < n && targets[j].id == row.id then
      exists j :: 0 <= j < n && targets[j].id == row.id && row' == SetEmbedding(row, vectors[j], e)
    else
      row' == row
  }

  method UpdateAll(rows: seq<Row>, targets: seq<Target>, vectors: seq<Bytes>, e: Embedder) returns (r: seq<Row>)
    requires |targets| == |vectors|
    ensures |r| == |rows|
    ensures forall i | 0 <= i < |rows| :: RowUpdated(targets, vectors, |targets|, e, rows[i], r[i])
  {
    r := rows;
    for n := 0 to |targets|
      invariant |r| == |rows|
      invariant forall i | 0 <= i < |rows| :: RowUpdated(targets, vectors, n, e, rows[i], r[i])
    {
      var before := r;
      r := UpdateWhere(before, targets[n].id, vectors[n], e);
      forall i | 0 <= i < |rows| ensures RowUpdated(targets, vectors, n + 1, e, rows[i], r[i]) {
        assert RowUpdated(targets, vectors, n, e, rows[i], before[i]);
      }
    }
  }

  /******* What an update leaves behind *******/

  predicate DistinctIds(rows: seq<Row>) {
    forall i, j | 0 <= i < j < |rows| :: rows[i].id != rows[j].id
  }

  lemma {:induction false} TargetsAreRows(rows: seq<Row>, j: nat)
    requires j < |Targets(rows)|
    ensures exists i :: 0 <= i < |rows| && IsTarget(rows[i]) && TargetOf(rows[i]) == Targets(rows)[j]
  {
    var first := if IsTarget(rows[0]) then 1 else 0;
    if j >= first {
      TargetsAreRows(rows[1..], j - first);
      var i :| 0 <= i < |rows[1..]| && IsTarget(rows[1..][i]) && TargetOf(rows[1..][i]) == Targets(rows)[j];
      assert rows[1 + i] == rows[1..][i];
    }
  }

  lemma {:induction false} RowsAreTargets(rows: seq<Row>, i: nat)
    requires i < |rows| && IsTarget(rows[i])
    ensures exists j :: 0 <= j < |Targets(rows)| && Targets(rows)[j] == TargetOf(rows[i])
  {
    if i > 0 {
      RowsAreTargets(rows[1..], i - 1);
      var first := if IsTarget(rows[0]) then 1 else 0;
      var j :| 0 <= j < |Targets(rows[1..])| && Targets(rows[1..])[j] == TargetOf(rows[i]);
      assert Targets(rows)[first + j] == TargetOf(rows[i]);
    } else {
      assert Targets(rows)[0] == TargetOf(rows[0]);
    }
  }

  // Every active embedded row now holds the embedding of its own text; nothing else changed.
  ghost predicate IsReembedded(e: Embedder, embed: string -> Bytes, before: seq<Row>, after: seq<Row>) {
    && |before| == |after|
    && forall i | 0 <= i < |before| ::
         if before[i].status.Active? && before[i].dense.Some?
         then
           var text: Text := if before[i].indexText.None? then "" else before[i].indexText.value;
           after[i] == before[i].(dense := Some(embed(text)), model := Some(e.model), dim := Some(e.dim))
         else after[i] == before[i]
  }

  // What the guard compares of two rows.
  predicate SameContents(a: Row, b: Row) {
    && a.id == b.id && a.dense == b.dense
    && (a.indexText == b.indexText || {a.indexText, b.indexText} == {None, Some("")})
    && (a.model == b.model || {a.model, b.model} == {None, Some("")})
    && (a.dim == b.dim || {a.dim, b.dim} == {None, Some(0)})
  }

  // Every active embedded row of a is one of b, with the same contents.
  ghost predicate AreFoundIn(a: seq<Row>, b: seq<Row>) {
    forall i | 0 <= i < |a| && a[i].status.Active? && a[i].dense.Some? :: IsFoundIn(a[i], b)
  }

  ghost predicate IsFoundIn(row: Row, rows: seq<Row>) {
    exists j :: 0 <= j < |rows| && rows[j].status.Active? && rows[j].dense.Some? && SameContents(row, rows[j])
  }

  lemma {:induction false} SameTargetSameContents(a: Row, b: Row)
    requires IsTarget(a) && IsTarget(b)
    ensures SameTarget(TargetOf(a), TargetOf(b)) <==> SameContents(a, b)
  {
  }

  // In tables in the order of their identifiers, the targets are the same exactly if the active
  // embedded rows are.
  lemma {:induction false} SameTargetsAreSameRows(a: seq<Row>, b: seq<Row>)
    requires IsAscending(RowIds(a)) && IsAscending(RowIds(b))
    ensures SameTargets(Targets(a), Targets(b)) <==> AreFoundIn(a, b) && AreFoundIn(b, a)
  {
    if SameTargets(Targets(a), Targets(b)) {
      SameTargetsAreFound(a, b);
      assert forall i | 0 <= i < |Targets(a)| :: SameTarget(Targets(a)[i], Targets(b)[i]);
      SameTargetsAreFound(b, a);
    }
    if AreFoundIn(a, b) && AreFoundIn(b, a) {
      TargetsAscend(a);
      TargetsAscend(b);
      FoundTargets(a, b);
      FoundTargets(b, a);
      AscendingTargetsAreSame(Targets(a), Targets(b));
    }
  }

  function RowIds(rows: seq<Row>): (ids: seq<Text>)
    ensures |ids| == |rows| && forall i | 0 <= i < |ids| :: ids[i] == rows[i].id
  {
    seq(|rows|, i requires 0 <= i < |rows| => rows[i].id)
  }

  lemma {:induction false} SameTargetsAreFound(a: seq<Row>, b: seq<Row>)
    requires SameTargets(Targets(a), Targets(b))
    ensures AreFoundIn(a, b)
  {
    forall i | 0 <= i < |a| && IsTarget(a[i]) ensures IsFoundIn(a[i], b) {
      RowsAreTargets(a, i);
      var j: nat :| j < |Targets(a)| && Targets(a)[j] == TargetOf(a[i]);
      TargetsAreRows(b, j);
      var k :| 0 <= k < |b| && IsTarget(b[k]) && TargetOf(b[k]) == Targets(b)[j];
      assert SameTarget(Targets(a)[j], Targets(b)[j]);
      SameTargetSameContents(a[i], b[k]);
    }
  }

  // Some target of the list is the same as t.
  ghost predicate HasTarget(targets: seq<Target>, t: Target) {
    exists j :: 0 <= j < |targets| && SameTarget(t, targets[j])
  }

  lemma {:induction false} FoundTargets(a: seq<Row>, b: seq<Row>)
    requires AreFoundIn(a, b)
    ensures forall t | t in Targets(a) :: HasTarget(Targets(b), t)
  {
    forall t | t in Targets(a) ensures HasTarget(Targets(b), t) {
      var j: nat :| j < |Targets(a)| && Targets(a)[j] == t;
      TargetsAreRows(a, j);
      var i :| 0 <= i < |a| && IsTarget(a[i]) && TargetOf(a[i]) == t;
      assert IsFoundIn(a[i], b);
      var k :| 0 <= k < |b| && b[k].status.Active? && b[k].dense.Some? && SameContents(a[i], b[k]);
      SameTargetSameContents(a[i], b[k]);
      RowsAreTargets(b, k);
      var m :| 0 <= m < |Targets(b)| && Targets(b)[m] == TargetOf(b[k]);
    }
  }

  ghost predicate TargetsAreAscending(targets: seq<Target>) {
    forall i, j | 0 <= i < j < |targets| :: StrLess(targets[i].id, targets[j].id)
  }

  lemma {:induction false} TargetsAscend(rows: seq<Row>)
    requires IsAscending(RowIds(rows))
    ensures TargetsAreAscending(Targets(rows))
  {
    if rows != [] {
      assert RowIds(rows)[1..] == RowIds(rows[1..]);
      TargetsAscend(rows[1..]);
      hide TargetOf;
      var rest := Targets(rows[1..]);
      forall j | 0 <= j < |rest| ensures StrLess(rows[0].id, rest[j].id) {
        TargetsAreRows(rows[1..], j);
        var i :| 0 <= i < |rows[1..]| && IsTarget(rows[1..][i]) && TargetOf(rows[1..][i]) == rest[j];
        assert RowIds(rows)[i + 1] == rest[j].id;
      }
    }
  }

  lemma {:induction false} AscendingTargetsAreSame(a: seq<Target>, b: seq<Target>)
    requires TargetsAreAscending(a) && TargetsAreAscending(b)
    requires (forall t | t in a :: HasTarget(b, t)) && forall t | t in b :: HasTarget(a, t)
    ensures SameTargets(a, b)
  {
    if a == [] {
      NothingIsFound(a, b);
    } else if b == [] {
      NothingIsFound(b, a);
    } else {
      FirstIsFirst(a, b);
      RestIsFound(a, b);
      RestIsFound(b, a);
      AscendingTargetsAreSame(a[1..], b[1..]);
      forall i | 0 <= i < |a| ensures SameTarget(a[i], b[i]) {
        if i > 0 { assert SameTarget(a[1..][i - 1], b[1..][i - 1]); }
      }
    }
  }

  lemma {:induction false} NothingIsFound(a: seq<Target>, b: seq<Target>)
    requires a == [] && forall t | t in b :: HasTarget(a, t)
    ensures b == []
  {
    if b != [] { FirstIsFound(a, b); }
  }

  lemma {:induction false} FirstIsFound(a: seq<Target>, b: seq<Target>)
    requires b != [] && forall t | t in b :: HasTarget(a, t)
    ensures HasTarget(a, b[0])
  {
  }

  lemma {:induction false} FirstIsFirst(a: seq<Target>, b: seq<Target>)
    requires a != [] && b != [] && TargetsAreAscending(a) && TargetsAreAscending(b)
    requires HasTarget(b, a[0]) && HasTarget(a, b[0])
    ensures SameTarget(a[0], b[0]) && SameTarget(b[0], a[0])
  {
    var j :| 0 <= j < |b| && SameTarget(a[0], b[j]);
    var i :| 0 <= i < |a| && SameTarget(b[0], a[i]);
    if j > 0 && i > 0 {
      StrTransitive(a[0].id, a[i].id, b[j].id);
      StrIrreflexive(a[0].id);
    } else if j > 0 {
      StrIrreflexive(b[0].id);
    }
  }

  lemma {:induction false} RestIsFound(a: seq<Target>, b: seq<Target>)
    requires a != [] && b != [] && TargetsAreAscending(a) && TargetsAreAscending(b) && SameTarget(a[0], b[0])
    requires forall t | t in a :: HasTarget(b, t)
    ensures forall t | t in a[1..] :: HasTarget(b[1..], t)
  {
    forall t | t in a[1..] ensures HasTarget(b[1..], t) {
      assert t in a;
      var j :| 0 <= j < |b| && SameTarget(t, b[j]);
      var i :| 1 <= i < |a| && a[i] == t;
      if j == 0 { StrIrreflexive(t.id); }
      assert b[1..][j - 1] == b[j];
    }
  }

  // Vectors computed for earlier targets are right for the rows found under the lock, when the
  // guard could not tell the two apart.
  lemma {:induction false} UpdateIsCurrent(e: Embedder, embed: string -> Bytes, targets: seq<Target>,
                                           vectors: seq<Bytes>,
                        locked: seq<Row>, after: seq<Row>)
    requires DistinctIds(locked) && SameTargets(targets, Targets(locked))
    requires |vectors| == |targets| && forall j | 0 <= j < |targets| :: vectors[j] == embed(targets[j].text)
    requires |after| == |locked|
    requires forall i | 0 <= i < |locked| :: RowUpdated(targets, vectors, |targets|, e, locked[i], after[i])
    ensures IsReembedded(e, embed, locked, after)
  {
    forall i | 0 <= i < |locked|
      ensures after[i] == if IsTarget(locked[i]) then SetEmbedding(locked[i], embed(TextOf(locked[i].indexText)), e)
                          else locked[i]
    {
      RowIsCurrent(e, embed, targets, vectors, locked, i, after[i]);
    }
  }

  lemma {:induction false} RowIsCurrent(e: Embedder, embed: string -> Bytes, targets: seq<Target>, vectors: seq<Bytes>,
                     locked: seq<Row>, i: nat, row': Row)
    requires DistinctIds(locked) && SameTargets(targets, Targets(locked)) && i < |locked|
    requires |vectors| == |targets| && forall j | 0 <= j < |targets| :: vectors[j] == embed(targets[j].text)
    requires RowUpdated(targets, vectors, |targets|, e, locked[i], row')
    ensures row' == if IsTarget(locked[i]) then SetEmbedding(locked[i], embed(TextOf(locked[i].indexText)), e)
                    else locked[i]
  {
    var row := locked[i];
    forall j: nat | j < |targets| && targets[j].id == row.id
      ensures IsTarget(row) && targets[j].text == TextOf(row.indexText)
    {
      SameIdSameText(targets, locked, i, j);
    }
    if IsTarget(row) {
      RowsAreTargets(locked, i);
      var j: nat :| j < |Targets(locked)| && Targets(locked)[j] == TargetOf(row);
      assert SameTarget(targets[j], Targets(locked)[j]);
    }
  }

  lemma {:induction false} SameIdSameText(targets: seq<Target>, locked: seq<Row>, i: nat, j: nat)
    requires DistinctIds(locked) && SameTargets(targets, Targets(locked)) && i < |locked|
    requires j < |targets| && targets[j].id == locked[i].id
    ensures IsTarget(locked[i]) && targets[j].text == TextOf(locked[i].indexText)
  {
    TargetsAreRows(locked, j);
    var k :| 0 <= k < |locked| && IsTarget(locked[k]) && TargetOf(locked[k]) == Targets(locked)[j];
    assert SameTarget(targets[j], Targets(locked)[j]);
    assert k == i;
  }

  // The update leaves the identifiers of the targets, and of the active rows, as they were.
  lemma {:induction false} UpdateKeepsIds(targets: seq<Target>, vectors: seq<Bytes>, e: Embedder,
                                          before: seq<Row>, after: seq<Row>)
    requires |targets| == |vectors| && |before| == |after|
    requires forall i | 0 <= i < |before| :: RowUpdated(targets, vectors, |targets|, e, before[i], after[i])
    requires forall i | 0 <= i < |before| :: Touched(targets, before[i].id) ==> IsTarget(before[i])
    ensures TargetIds(Targets(after)) == TargetIds(Targets(before)) && ActiveIds(after) == ActiveIds(before)
  {
    if before != [] {
      hide RowUpdated, Touched;
      UpdateKeepsId(targets, vectors, e, before[0], after[0]);
      UpdateKeepsIds(targets, vectors, e, before[1..], after[1..]);
      FirstTargetId(before);
      FirstTargetId(after);
    }
  }

  lemma {:induction false} UpdateKeepsId(targets: seq<Target>, vectors: seq<Bytes>, e: Embedder, row: Row, row': Row)
    requires |targets| == |vectors| && RowUpdated(targets, vectors, |targets|, e, row, row')
    requires Touched(targets, row.id) ==> IsTarget(row)
    ensures row'.id == row.id && row'.status == row.status && (IsTarget(row') <==> IsTarget(row))
  {
  }

  lemma {:induction false} FirstTargetId(rows: seq<Row>)
    requires rows != []
    ensures TargetIds(Targets(rows)) == (if IsTarget(rows[0]) then [rows[0].id] else []) + TargetIds(Targets(rows[1..]))
  {
    var rest := Targets(rows[1..]);
    if IsTarget(rows[0]) {
      assert Targets(rows) == [TargetOf(rows[0])] + rest && Targets(rows)[1..] == rest;
    } else {
      assert Targets(rows) == [] + rest == rest;
    }
  }

  ghost predicate Touched(targets: seq<Target>, id: Text) {
    exists j :: 0 <= j < |targets| && targets[j].id == id
  }

  /******* The procedure *******/

  datatype Failure = EmbedderFailed | CountMismatch | DimensionMismatch | LockFailed | TargetsChanged | SetChanged

  datatype Outcome = Outcome(before: Report, after: Report, updated: nat)

  lemma {:induction false} OnlyTargetsTouched(targets: seq<Target>, locked: seq<Row>, i: nat)
    requires DistinctIds(locked) && SameTargets(targets, Targets(locked)) && i < |locked|
    requires Touched(targets, locked[i].id)
    ensures IsTarget(locked[i])
  {
    var j :| 0 <= j < |targets| && targets[j].id == locked[i].id;
    SameIdSameText(targets, locked, i, j);
  }

  // The check after the update compares what the update cannot have changed.
  lemma {:induction false} FinalCheckHolds(codec: Codec, e: Embedder, targets: seq<Target>, vectors: seq<Bytes>,
                                           locked: seq<Row>, after: seq<Row>)
    requires DistinctIds(locked) && SameTargets(targets, Targets(locked)) && |vectors| == |targets|
    requires |after| == |locked|
    requires forall i | 0 <= i < |locked| :: RowUpdated(targets, vectors, |targets|, e, locked[i], after[i])
    ensures TargetIds(Targets(after)) == TargetIds(targets) && |Targets(after)| == |targets|
    ensures ActiveIds(after) == ActiveIds(locked)
  {
    forall i | 0 <= i < |locked| ensures Touched(targets, locked[i].id) ==> IsTarget(locked[i]) {
      if Touched(targets, locked[i].id) { OnlyTargetsTouched(targets, locked, i); }
    }
    UpdateKeepsIds(targets, vectors, e, locked, after);
    SameIds(targets, Targets(locked));
    IdsCount(Targets(after));
    IdsCount(Targets(locked));
  }

  lemma {:induction false} SameIds(a: seq<Target>, b: seq<Target>)
    requires SameTargets(a, b)
    ensures TargetIds(a) == TargetIds(b)
  {
    if a != [] {
      assert SameTarget(a[0], b[0]);
      forall i | 0 <= i < |a[1..]| ensures SameTarget(a[1..][i], b[1..][i]) {
        assert SameTarget(a[i + 1], b[i + 1]);
      }
      SameIds(a[1..], b[1..]);
    }
  }

  lemma {:induction false} IdsCount(targets: seq<Target>)
    ensures |TargetIds(targets)| == |targets|
  {
    if targets != [] { IdsCount(targets[1..]); }
  }

  class Store {
    // The claims as last committed, in the order of their identifiers.
    var rows: seq<Row>

    constructor (rows: seq<Row>)
      ensures this.rows == rows
    {
      this.rows := rows;
    }

    // Any writers, as long as no lock is held; identifiers stay unique.
    method OthersWrite()
      requires DistinctIds(rows)
      modifies this
      ensures DistinctIds(rows)
    {
      var written: seq<Row> := *;
      if DistinctIds(written) { rows := written; }
    }

    /**
      Re-embeds all active claims.  The other writers act between the two reads of the first
      snapshot, and again until the lock is taken: read is the table at the second read, locked
      that under the lock.  busy and commitFails say what the database does with the transaction.
     */
    method ReembedAll(codec: Codec, e: Embedder, dryRun: bool, busy: bool, commitFails: bool,
                      ghost embed: string -> Bytes)
      returns (r: Result<Outcome, Failure>, ghost read: seq<Row>, ghost locked: seq<Row>)
      requires DistinctIds(rows) && IsInjective(codec)
      modifies this
      ensures DistinctIds(read) && DistinctIds(locked) && r != Err(SetChanged)
      ensures r.Err? ==> rows == locked && MayFail(e, embed, r.error, busy || commitFails, read, locked)
      ensures r.Ok? ==> && r.value.before == ReportOf(codec, SnapshotOf(codec, old(rows), read))
                        && (r.value.updated == 0 <==> dryRun || Targets(read) == [])
      ensures r.Ok? && r.value.updated == 0 ==> rows == locked == read && r.value.after == r.value.before
      ensures r.Ok? && r.value.updated > 0 ==> && r.value.updated == |Targets(locked)|
                                               && r.value.after == ReportOf(codec, SnapshotOf(codec, rows, rows))
                                               && SameTargets(Targets(read), Targets(locked))
                                               && (Embeds(e, embed) ==> IsReembedded(e, embed, locked, rows))
    {
      var first := rows;
      OthersWrite();
      read, locked := rows, rows;
      var before := TakeSnapshot(codec, first, rows);
      var report := ReportOf(codec, before);
      if dryRun || before.targets == [] { return Ok(Outcome(report, report, 0)), read, locked; }
      var vectors := EmbedTargets(e, before.targets, embed);
      OthersWrite();
      locked := rows;
      if vectors.None? { return Err(EmbedderFailed), read, locked; }
      if |vectors.value| != |before.targets| { return Err(CountMismatch), read, locked; }
      for i := 0 to |vectors.value| {
        if |vectors.value[i]| != e.dim * 4 { return Err(DimensionMismatch), read, locked; }
      }
      r := WriteLocked(codec, e, before, vectors.value, busy, commitFails, embed);
    }

    // The transaction: nothing else writes until it is committed or rolled back.
    method WriteLocked(codec: Codec, e: Embedder, before: Snapshot, vectors: seq<Bytes>, busy: bool, commitFails: bool,
                       ghost embed: string -> Bytes)
      returns (r: Result<Outcome, Failure>)
      requires DistinctIds(rows) && IsInjective(codec) && |vectors| == |before.targets| > 0
      requires before.guard == Guard(codec, before.targets)
      requires Embeds(e, embed) ==> forall i | 0 <= i < |vectors| :: vectors[i] == embed(before.targets[i].text)
      modifies this
      ensures r.Ok? <==> !busy && !commitFails && SameTargets(before.targets, Targets(old(rows)))
      ensures r.Err? ==> rows == old(rows)
      ensures r.Err? ==> r.error == if !busy && !SameTargets(before.targets, Targets(old(rows))) then TargetsChanged
                                    else LockFailed
      ensures r.Ok? ==> && r.value == Outcome(ReportOf(codec, before), ReportOf(codec, SnapshotOf(codec, rows, rows)),
                                              |before.targets|)
                        && ActiveIds(rows) == ActiveIds(old(rows))
                        && TargetIds(Targets(rows)) == TargetIds(Targets(old(rows)))
      ensures r.Ok? && Embeds(e, embed) ==> IsReembedded(e, embed, old(rows), rows)
    {
      hide IsInjective, Guard, Embeds, IsReembedded;
      if busy { return Err(LockFailed); }
      var locked := TakeSnapshot(codec, rows, rows);
      GuardTellsTargets(codec, before.targets, locked.targets);
      if locked.guard != before.guard { return Err(TargetsChanged); }
      var updated := UpdateAll(rows, before.targets, vectors, e);
      var after := TakeSnapshot(codec, updated, updated);
      FinalCheckHolds(codec, e, before.targets, vectors, rows, updated);
      SameIds(before.targets, Targets(rows));
      if Embeds(e, embed) { UpdateIsCurrent(e, embed, before.targets, vectors, rows, updated); }
      if IdFingerprint(codec, TargetIds(after.targets)) != IdFingerprint(codec, TargetIds(before.targets))
         || |after.targets| != |before.targets| {
        return Err(SetChanged);
      }
      if commitFails { return Err(LockFailed); }
      rows := updated;
      r := Ok(Outcome(ReportOf(codec, before), ReportOf(codec, after), |before.targets|));
    }
  }

  // When each failure is possible.
  ghost predicate MayFail(e: Embedder, embed: string -> Bytes, failure: Failure, databaseFails: bool,
                          before: seq<Row>, locked: seq<Row>)
  {
    match failure
    case EmbedderFailed => Raises(e, Targets(before))
    case CountMismatch => !Embeds(e, embed)
    case DimensionMismatch => Embeds(e, embed) ==> exists text: string :: |embed(text)| != e.dim * 4
    case LockFailed => databaseFails
    case TargetsChanged => !SameTargets(Targets(before), Targets(locked))
    case SetChanged => false
  }
}
