/**
  Length-prefixed and separator-joined encodings.

  A Go string is a byte string; here a char below 256 stands for one byte. Four packages
  of the repository frame lists of strings before hashing or keying them: hop digests use
  uvarint prefixes, control MACs big-endian prefixes, approval keys decimal prefixes, and
  effect fingerprints a NUL separator. Each framing is shown to determine its fields.
 */
module Framing {

  /** One framed field: the encoded length, then the bytes. */
  function Frame(prefix: nat -> string, field: string): string {
    prefix(|field|) + field
  }

  /** The concatenation of the framed fields. */
  function FrameAll(prefix: nat -> string, fields: seq<string>): string {
    if fields == [] then "" else Frame(prefix, fields[0]) + FrameAll(prefix, fields[1..])
  }

  /** A length encoding that can be read back off the front of any text, for lengths that fit. */
  ghost predicate PrefixFree(prefix: nat -> string, fits: nat -> bool) {
    && (forall n: nat :: prefix(n) != "")
    && (forall m: nat, n: nat, x: string, y: string {:trigger prefix(m) + x, prefix(n) + y} ::
          fits(m) && fits(n) && prefix(m) + x == prefix(n) + y ==> m == n && x == y)
  }

  ghost predicate AllFit(fits: nat -> bool, fields: seq<string>) {
    forall i :: 0 <= i < |fields| ==> fits(|fields[i]|)
  }

  /** Concatenated framed fields determine how many fields there are and every one of them. */
  lemma {:induction false} FrameAllInjective(prefix: nat -> string, fits: nat -> bool, a: seq<string>, b: seq<string>)
    requires PrefixFree(prefix, fits) && AllFit(fits, a) && AllFit(fits, b)
    requires FrameAll(prefix, a) == FrameAll(prefix, b)
    ensures a == b
  {
    assert b != [] ==> FrameAll(prefix, b) != "" && a != [];
    if a != [] && b != [] {
      var x, y := a[0] + FrameAll(prefix, a[1..]), b[0] + FrameAll(prefix, b[1..]);
      assert prefix(|a[0]|) + x == FrameAll(prefix, a);
      assert prefix(|b[0]|) + y == FrameAll(prefix, b);
      assert fits(|a[0]|) && fits(|b[0]|);
      assert x[..|a[0]|] == a[0] && y[..|b[0]|] == b[0];
      assert x[|a[0]|..] == FrameAll(prefix, a[1..]) && y[|b[0]|..] == FrameAll(prefix, b[1..]);
      FrameAllInjective(prefix, fits, a[1..], b[1..]);
    }
  }

  /** Appending a field appends its frame. */
  lemma {:induction false} FrameAllSnoc(prefix: nat -> string, fields: seq<string>, field: string)
    ensures FrameAll(prefix, fields + [field]) == FrameAll(prefix, fields) + Frame(prefix, field)
  {
    if fields == [] {
      assert fields + [field] == [field];
    } else {
      assert (fields + [field])[1..] == fields[1..] + [field];
      FrameAllSnoc(prefix, fields[1..], field);
      var rest := FrameAll(prefix, fields[1..]);
      assert Frame(prefix, fields[0]) + (rest + Frame(prefix, field)) == Frame(prefix, fields[0]) + rest + Frame(prefix, field);
    }
  }

  // ----- uvarint (encoding/binary PutUvarint) -----

  /** Base-128, least significant group first, high bit set on every byte but the last. */
  function Uvarint(n: nat): string {
    if n < 128 then [n as char] else [(n % 128 + 128) as char] + Uvarint(n / 128)
  }

  function AnyLength(n: nat): bool {
    true
  }

  lemma {:induction false} UvarintReadBack(m: nat, n: nat, x: string, y: string)
    requires Uvarint(m) + x == Uvarint(n) + y
    ensures m == n && x == y
    decreases m
  {
    var s, t := Uvarint(m) + x, Uvarint(n) + y;
    assert s[0] == t[0];
    if m < 128 || n < 128 {
      assert s[1..] == x || m >= 128;
      assert t[1..] == y || n >= 128;
    } else {
      assert s[1..] == Uvarint(m / 128) + x;
      assert t[1..] == Uvarint(n / 128) + y;
      UvarintReadBack(m / 128, n / 128, x, y);
    }
  }

  lemma UvarintPrefixFree()
    ensures PrefixFree(Uvarint, AnyLength)
  {
    forall m: nat, n: nat, x: string, y: string | Uvarint(m) + x == Uvarint(n) + y
      ensures m == n && x == y
    {
      UvarintReadBack(m, n, x, y);
    }
  }

  // ----- eight big-endian bytes (encoding/binary BigEndian.PutUint64) -----

  /** The low w bytes of n, most significant first. */
  function BigEndian(w: nat, n: nat): (r: string)
    ensures |r| == w
  {
    if w == 0 then "" else BigEndian(w - 1, n / 256) + [(n % 256) as char]
  }

  function BigEndian64(n: nat): string {
    BigEndian(8, n)
  }

  function Pow256(w: nat): (r: nat)
    ensures r > 0
  {
    if w == 0 then 1 else 256 * Pow256(w - 1)
  }

  function FitsUint64(n: nat): bool {
    n < Pow256(8)
  }

  lemma {:induction false} BigEndianInjective(w: nat, m: nat, n: nat)
    requires m < Pow256(w) && n < Pow256(w)
    requires BigEndian(w, m) == BigEndian(w, n)
    ensures m == n
  {
    if w > 0 {
      var s, t := BigEndian(w, m), BigEndian(w, n);
      assert s[..w - 1] == BigEndian(w - 1, m / 256) && t[..w - 1] == BigEndian(w - 1, n / 256);
      assert s[w - 1] == t[w - 1];
      BigEndianInjective(w - 1, m / 256, n / 256);
    }
  }

  lemma BigEndianPrefixFree()
    ensures PrefixFree(BigEndian64, FitsUint64)
  {
    forall m: nat, n: nat, x: string, y: string
      | FitsUint64(m) && FitsUint64(n) && BigEndian64(m) + x == BigEndian64(n) + y
      ensures m == n && x == y
    {
      var s, t := BigEndian64(m) + x, BigEndian64(n) + y;
      assert s[..8] == BigEndian(8, m) && t[..8] == BigEndian(8, n);
      assert s[8..] == x && t[8..] == y;
      BigEndianInjective(8, m, n);
    }
  }

  // ----- decimal (fmt %d, strconv.Itoa, strconv.FormatUint) -----

  predicate IsDigit(c: char) {
    '0' <= c <= '9'
  }

  function Decimal(n: nat): (r: string)
    ensures r != "" && forall i :: 0 <= i < |r| ==> IsDigit(r[i])
  {
    (if n < 10 then "" else Decimal(n / 10)) + ['0' + (n % 10) as char]
  }

  lemma {:induction false} DecimalInjective(m: nat, n: nat)
    requires Decimal(m) == Decimal(n)
    ensures m == n
  {
    var s, t := Decimal(m), Decimal(n);
    assert s[|s| - 1] == t[|t| - 1];
    assert s[..|s| - 1] == (if m < 10 then "" else Decimal(m / 10));
    assert t[..|t| - 1] == (if n < 10 then "" else Decimal(n / 10));
    if m >= 10 && n >= 10 {
      DecimalInjective(m / 10, n / 10);
    }
  }

  /** Text up to the first separator is determined when neither side contains it. */
  lemma {:induction false} SplitAtSeparator(c: char, a: string, b: string, x: string, y: string)
    requires c !in a && c !in b
    requires a + [c] + x == b + [c] + y
    ensures a == b && x == y
  {
    var s, t := a + [c] + x, b + [c] + y;
    assert s[|a|] == c && t[|b|] == c;
    assert forall i :: 0 <= i < |b| ==> t[i] == b[i] && t[i] in b;
    assert forall i :: 0 <= i < |a| ==> s[i] == a[i] && s[i] in a;
    assert s[..|a|] == a && t[..|b|] == b;
    assert s[|a| + 1..] == x && t[|b| + 1..] == y;
  }

  /** A field behind its decimal length, "<length>:<field>". */
  function DecimalField(field: string): string {
    Decimal(|field|) + ":" + field
  }

  /** Such a field can be read back off the front of any text, colons and digits in it or after it included. */
  lemma DecimalFieldReadBack(a: string, b: string, x: string, y: string)
    requires DecimalField(a) + x == DecimalField(b) + y
    ensures a == b && x == y
  {
    assert DecimalField(a) + x == Decimal(|a|) + [':'] + (a + x);
    assert DecimalField(b) + y == Decimal(|b|) + [':'] + (b + y);
    SplitAtSeparator(':', Decimal(|a|), Decimal(|b|), a + x, b + y);
    DecimalInjective(|a|, |b|);
    assert (a + x)[..|a|] == a && (b + y)[..|b|] == b;
    assert (a + x)[|a|..] == x && (b + y)[|b|..] == y;
  }

  // ----- separator join (strings.Join) -----

  function Join(c: char, parts: seq<string>): string
    requires parts != []
  {
    if |parts| == 1 then parts[0] else parts[0] + [c] + Join(c, parts[1..])
  }

  ghost predicate FreeOf(c: char, parts: seq<string>) {
    forall i :: 0 <= i < |parts| ==> c !in parts[i]
  }

  /** Joined parts that never contain the separator determine the list. */
  lemma {:induction false} JoinInjective(c: char, a: seq<string>, b: seq<string>)
    requires a != [] && b != [] && FreeOf(c, a) && FreeOf(c, b)
    requires Join(c, a) == Join(c, b)
    ensures a == b
  {
    assert |a| > 1 ==> c in Join(c, a);
    assert |b| > 1 ==> c in Join(c, b);
    if |a| > 1 && |b| > 1 {
      SplitAtSeparator(c, a[0], b[0], Join(c, a[1..]), Join(c, b[1..]));
      JoinInjective(c, a[1..], b[1..]);
      assert a == [a[0]] + a[1..] && b == [b[0]] + b[1..];
    }
  }
}
