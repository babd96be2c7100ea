/** Chunk identifiers: how they are printed, when the loader recovers the index from them,
    and why no two of them are the same. */
module ChunkIds {
  import opened Wrappers
  import Seqs = Sequences

  predicate IsDigit(c: char) {
    '0' <= c <= '9'
  }

  predicate AllDigits(s: string) {
    forall i | 0 <= i < |s| :: IsDigit(s[i])
  }

  function DigitChar(d: nat): (c: char)
    requires d < 10
    ensures IsDigit(c)
  {
    '0' + d as char
  }

  function Decimal(n: nat): (s: string)
    ensures s != "" && AllDigits(s)
  {
    if n < 10 then [DigitChar(n)] else Decimal(n / 10) + [DigitChar(n % 10)]
  }

  function PadTo(s: string, width: nat): (r: string)
    ensures AllDigits(s) ==> AllDigits(r)
    ensures s != "" ==> r != ""
    decreases width - |s|
  {
    if |s| >= width then s else PadTo("0" + s, width)
  }

  /** `int(s)` for a string of digits. */
  function Number(s: string): nat
    requires AllDigits(s)
  {
    if s == "" then 0 else 10 * Number(s[..|s| - 1]) + (s[|s| - 1] as nat - '0' as nat)
  }

  lemma {:induction false} NumberOfDecimal(n: nat)
    ensures Number(Decimal(n)) == n
  {
    if n >= 10 {
      NumberOfDecimal(n / 10);
      var s := Decimal(n);
      assert s[..|s| - 1] == Decimal(n / 10);
    }
  }

  lemma {:induction false} LeadingZero(s: string)
    requires AllDigits(s)
    ensures AllDigits("0" + s) && Number("0" + s) == Number(s)
    decreases |s|
  {
    var z := "0" + s;
    assert forall i | 0 <= i < |z| :: IsDigit(z[i]);
    if s == "" {
      assert z[..0] == "";
    } else {
      LeadingZero(s[..|s| - 1]);
      assert z[..|z| - 1] == "0" + s[..|s| - 1];
      assert z[|z| - 1] == s[|s| - 1];
    }
  }

  lemma {:induction false} NumberOfPadded(s: string, width: nat)
    requires AllDigits(s)
    ensures Number(PadTo(s, width)) == Number(s)
    decreases width - |s|
  {
    if |s| < width {
      LeadingZero(s);
      NumberOfPadded("0" + s, width);
    }
  }

  /** `f"{kb_code}::{index:04d}"` */
  function ChunkId(kbCode: string, index: nat): string {
    kbCode + "::" + PadTo(Decimal(index), 4)
  }

  /** `f"{kb_code}::v{version_number}::{index:04d}"` */
  function VersionedId(kbCode: string, version: nat, index: nat): string {
    ChunkId(kbCode + "::v" + Decimal(version), index)
  }

  // ---------- identifiers are distinct ----------

  lemma {:induction false} LastSeparator(a: string, b: string, c: char, d1: string, d2: string)
    requires !IsDigit(c) && AllDigits(d1) && AllDigits(d2)
    requires a + [c] + d1 == b + [c] + d2
    ensures a == b && d1 == d2
  {
    var s, t := a + [c] + d1, b + [c] + d2;
    assert s[|a|] == c && t[|b|] == c;
    assert forall i | |a| < i < |s| :: s[i] == d1[i - |a| - 1];
    assert forall i | |b| < i < |t| :: t[i] == d2[i - |b| - 1];
    assert |a| == |b|;
    assert a == s[..|a|] && b == t[..|b|];
    assert d1 == s[|a| + 1..] && d2 == t[|b| + 1..];
  }

  /** An identifier determines its code and its index. */
  lemma {:induction false} ChunkIdsDiffer(k1: string, i1: nat, k2: string, i2: nat)
    requires ChunkId(k1, i1) == ChunkId(k2, i2)
    ensures k1 == k2 && i1 == i2
  {
    var d1, d2 := PadTo(Decimal(i1), 4), PadTo(Decimal(i2), 4);
    assert ChunkId(k1, i1) == (k1 + ":") + [':'] + d1;
    assert ChunkId(k2, i2) == (k2 + ":") + [':'] + d2;
    LastSeparator(k1 + ":", k2 + ":", ':', d1, d2);
    assert k1 == (k1 + ":")[..|k1|] && k2 == (k2 + ":")[..|k2|];
    NumberOfDecimal(i1);
    NumberOfDecimal(i2);
    NumberOfPadded(Decimal(i1), 4);
    NumberOfPadded(Decimal(i2), 4);
  }

  /** An identifier of a version determines code, version and index. */
  lemma {:induction false} VersionedIdsDiffer(k1: string, v1: nat, i1: nat, k2: string, v2: nat, i2: nat)
    requires VersionedId(k1, v1, i1) == VersionedId(k2, v2, i2)
    ensures k1 == k2 && v1 == v2 && i1 == i2
  {
    ChunkIdsDiffer(k1 + "::v" + Decimal(v1), i1, k2 + "::v" + Decimal(v2), i2);
    assert k1 + "::v" + Decimal(v1) == (k1 + "::") + ['v'] + Decimal(v1);
    assert k2 + "::v" + Decimal(v2) == (k2 + "::") + ['v'] + Decimal(v2);
    LastSeparator(k1 + "::", k2 + "::", 'v', Decimal(v1), Decimal(v2));
    assert k1 == (k1 + "::")[..|k1|] && k2 == (k2 + "::")[..|k2|];
    NumberOfDecimal(v1);
    NumberOfDecimal(v2);
  }

  /** The identifiers of one upload, in chunk order. */
  function UploadIds(kbCode: string, version: nat, count: nat): seq<string> {
    seq(count, i requires 0 <= i < count => VersionedId(kbCode, version, i + 1))
  }

  lemma {:induction false} UploadIdsAreDistinct(kbCode: string, version: nat, count: nat)
    ensures forall i, j | 0 <= i < j < count :: UploadIds(kbCode, version, count)[i] != UploadIds(kbCode, version, count)[j]
  {
    forall i, j | 0 <= i < j < count
      ensures UploadIds(kbCode, version, count)[i] != UploadIds(kbCode, version, count)[j]
    {
      if VersionedId(kbCode, version, i + 1) == VersionedId(kbCode, version, j + 1) {
        VersionedIdsDiffer(kbCode, version, i + 1, kbCode, version, j + 1);
      }
    }
  }

  /** Uploads of different codes or different versions share no identifier. */
  lemma {:induction false} UploadsDoNotShareIds(k1: string, v1: nat, n1: nat, k2: string, v2: nat, n2: nat, id: string)
    requires k1 != k2 || v1 != v2
    ensures id !in UploadIds(k1, v1, n1) || id !in UploadIds(k2, v2, n2)
  {
    if id in UploadIds(k1, v1, n1) && id in UploadIds(k2, v2, n2) {
      var i :| 0 <= i < n1 && UploadIds(k1, v1, n1)[i] == id;
      var j :| 0 <= j < n2 && UploadIds(k2, v2, n2)[j] == id;
      VersionedIdsDiffer(k1, v1, i + 1, k2, v2, j + 1);
    }
  }

  // ---------- reading the index back ----------

  predicate SeparatorAt(s: string, i: nat) {
    i + 2 <= |s| && s[i] == ':' && s[i + 1] == ':'
  }

  /** The first occurrence of the separator. */
  function Find(s: string): (r: Option<nat>)
    ensures r.Some? ==> SeparatorAt(s, r.value) && forall j | 0 <= j < r.value :: !SeparatorAt(s, j)
    ensures r.None? ==> forall j: nat :: !SeparatorAt(s, j)
  {
    if |s| < 2 then None
    else if SeparatorAt(s, 0) then Some(0)
    else
      var rest := Find(s[1..]);
      assert forall j: nat | j > 0 :: SeparatorAt(s, j) == SeparatorAt(s[1..], j - 1);
      if rest.Some? then Some(rest.value + 1) else None
  }

  /** `s.split("::")[-1]` */
  function LastPart(s: string): string
    decreases |s|
  {
    match Find(s)
    case None => s
    case Some(i) => LastPart(s[i + 2..])
  }

  function ParseChunkIndex(externalId: string, fallback: nat): nat {
    if Find(externalId).Some? && LastPart(externalId) != "" && AllDigits(LastPart(externalId))
    then Number(LastPart(externalId))
    else fallback
  }

  function Colons(n: nat): string {
    seq(n, _ => ':')
  }

  function TrailingColons(s: string): (n: nat)
    ensures n <= |s|
    ensures s[|s| - n..] == Colons(n)
    ensures n < |s| ==> s[|s| - n - 1] != ':'
  {
    if s != "" && s[|s| - 1] == ':' then 1 + TrailingColons(s[..|s| - 1]) else 0
  }

  lemma {:induction false} LastPartSkips(s: string, k: nat, rest: string)
    requires SeparatorAt(s, k) && forall j | 0 <= j < k :: !SeparatorAt(s, j)
    requires s[k + 2..] == rest
    ensures LastPart(s) == LastPart(rest)
  {
    assert Find(s) == Some(k);
  }

  lemma {:induction false} ColonsConcat(m: nat, n: nat)
    ensures Colons(m) + Colons(n) == Colons(m + n)
  {
  }

  /** The characters of some text, a run of colons and digits. */
  lemma {:induction false} Letters(base: string, m: nat, digits: string)
    requires AllDigits(digits)
    ensures var s := base + Colons(m) + digits;
            && |s| == |base| + m + |digits|
            && (forall i | 0 <= i < |base| :: s[i] == base[i])
            && (forall i | |base| <= i < |base| + m :: s[i] == ':')
            && (forall i | |base| + m <= i < |s| :: s[i] != ':')
  {
  }

  lemma {:induction false} DropFromBase(base: string, m: nat, digits: string, k: nat)
    requires k <= |base|
    ensures (base + Colons(m) + digits)[k..] == base[k..] + Colons(m) + digits
  {
  }

  lemma {:induction false} DropTwoColons(base: string, m: nat, digits: string)
    requires m >= 2
    ensures (base + Colons(m) + digits)[|base| + 2..] == "" + Colons(m - 2) + digits
  {
    Seqs.Units(Colons(m - 2));
  }

  lemma {:induction false} SeparatorsOfBase(base: string, m: nat, digits: string)
    requires AllDigits(digits) && (base == "" || base[|base| - 1] != ':')
    ensures forall j | 0 <= j < |base| :: SeparatorAt(base + Colons(m) + digits, j) <==> SeparatorAt(base, j)
  {
    Letters(base, m, digits);
  }

  lemma {:induction false} OneColonAtMost(digits: string)
    requires AllDigits(digits)
    ensures LastPart(digits) == digits && LastPart(":" + digits) == ":" + digits
  {
    var s := ":" + digits;
    assert forall i | 0 < i < |s| :: s[i] == digits[i - 1];
    assert forall j: nat :: !SeparatorAt(digits, j);
    assert forall j: nat :: !SeparatorAt(s, j);
  }

  /** Splitting pairs off a run of colons from the left leaves one over when it is odd. */
  lemma {:induction false} LastPartOfColons(m: nat, digits: string)
    requires digits != "" && AllDigits(digits)
    ensures LastPart("" + Colons(m) + digits) == if m % 2 == 0 then digits else ":" + digits
  {
    hide LastPart;
    if m < 2 {
      OneColonAtMost(digits);
      Seqs.Units(Colons(m));
      Seqs.Units(digits);
      assert Colons(m) == if m == 0 then "" else ":";
    } else {
      Letters("", m, digits);
      DropTwoColons("", m, digits);
      LastPartSkips("" + Colons(m) + digits, 0, "" + Colons(m - 2) + digits);
      LastPartOfColons(m - 2, digits);
    }
  }

  lemma {:induction false} LastPartAfterColons(base: string, m: nat, digits: string)
    requires base == "" || base[|base| - 1] != ':'
    requires digits != "" && AllDigits(digits) && m >= 2
    ensures LastPart(base + Colons(m) + digits) == if m % 2 == 0 then digits else ":" + digits
    decreases |base|
  {
    hide LastPart;
    var s := base + Colons(m) + digits;
    Letters(base, m, digits);
    SeparatorsOfBase(base, m, digits);
    match Find(base) {
      case Some(k) =>
        DropFromBase(base, m, digits, k + 2);
        LastPartSkips(s, k, base[k + 2..] + Colons(m) + digits);
        LastPartAfterColons(base[k + 2..], m, digits);
      case None =>
        DropTwoColons(base, m, digits);
        LastPartSkips(s, |base|, "" + Colons(m - 2) + digits);
        LastPartOfColons(m - 2, digits);
    }
  }

  lemma {:induction false} ParseAfterColons(base: string, m: nat, digits: string, fallback: nat)
    requires base == "" || base[|base| - 1] != ':'
    requires digits != "" && AllDigits(digits) && m >= 2
    ensures ParseChunkIndex(base + Colons(m) + digits, fallback) == if m % 2 == 0 then Number(digits) else fallback
  {
    hide LastPart;
    hide Colons;
    var s := base + Colons(m) + digits;
    LastPartAfterColons(base, m, digits);
    Letters(base, m, digits);
    assert SeparatorAt(s, |base|);
    assert Find(s).Some?;
    if m % 2 == 1 {
      NoDigits(digits);
    }
  }

  lemma {:induction false} NoDigits(digits: string)
    ensures !AllDigits(":" + digits)
  {
    assert (":" + digits)[0] == ':';
  }

  lemma {:induction false} PaddedIndex(index: nat)
    ensures Number(PadTo(Decimal(index), 4)) == index
  {
    NumberOfDecimal(index);
    NumberOfPadded(Decimal(index), 4);
  }

  lemma {:induction false} ChunkIdByColons(kbCode: string, index: nat)
    ensures var r := TrailingColons(kbCode);
            ChunkId(kbCode, index) == kbCode[..|kbCode| - r] + Colons(r + 2) + PadTo(Decimal(index), 4)
  {
    var r := TrailingColons(kbCode);
    hide Decimal;
    hide PadTo;
    hide TrailingColons;
    var base := kbCode[..|kbCode| - r];
    assert kbCode == base + kbCode[|kbCode| - r..];
    assert "::" == Colons(2);
    ColonsConcat(r, 2);
    Seqs.Assoc(base, Colons(r), Colons(2));
  }

  /** The loader recovers the index of a chunk if and only if its code ends in an even
      number of colons (none, for every ordinary code); otherwise it falls back to 0. */
  lemma {:induction false} IndexIsRecoveredIff(kbCode: string, index: nat)
    requires index > 0
    ensures ParseChunkIndex(ChunkId(kbCode, index), 0) == index <==> TrailingColons(kbCode) % 2 == 0
    ensures ParseChunkIndex(ChunkId(kbCode, index), 0) in {index, 0}
  {
    hide TrailingColons;
    hide ChunkId;
    hide PadTo;
    hide ParseChunkIndex;
    hide Colons;
    var r := TrailingColons(kbCode);
    ChunkIdByColons(kbCode, index);
    PaddedIndex(index);
    ParseAfterColons(kbCode[..|kbCode| - r], r + 2, PadTo(Decimal(index), 4), 0);
  }
}
