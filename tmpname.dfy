/** Temporary file names: `filename + "." + MurmurHash3(moduleFile + pid + counter)`,
    where every number is rendered the way JavaScript's `String(n)` renders a
    non-negative integer. */
module TmpName {
  import opened FileSystem

  function DigitChar(d: nat): (c: char)
    requires d < 10
    ensures '0' <= c <= '9' && c as int - '0' as int == d
  {
    (d + '0' as int) as char
  }

  predicate IsDigits(s: string)
  {
    forall i :: 0 <= i < |s| ==> '0' <= s[i] <= '9'
  }

  /** `String(n)` for a non-negative integer: its decimal digits, no leading zeros. */
  function Decimal(n: nat): (s: string)
    ensures |s| >= 1 && IsDigits(s)
    ensures (n < 10) == (|s| == 1)
    decreases n
  {
    if n < 10 then [DigitChar(n)] else Decimal(n / 10) + [DigitChar(n % 10)]
  }

  /** The number that a string of decimal digits denotes. */
  function DecimalValue(s: string): nat
    requires IsDigits(s)
  {
    if s == [] then 0
    else DecimalValue(s[..|s| - 1]) * 10 + (s[|s| - 1] as int - '0' as int)
  }

  /** Reading back what `Decimal` wrote gives the number again. */
  lemma {:induction false} DecimalRoundTrip(n: nat)
    ensures DecimalValue(Decimal(n)) == n
    decreases n
  {
    if n >= 10 {
      var s := Decimal(n);
      assert s[..|s| - 1] == Decimal(n / 10);
      DecimalRoundTrip(n / 10);
    }
  }

  /** Distinct numbers have distinct decimal renderings. */
  lemma DecimalInjective(a: nat, b: nat)
    requires a != b
    ensures Decimal(a) != Decimal(b)
  {
    DecimalRoundTrip(a);
    DecimalRoundTrip(b);
  }

  /** The string the incremental hash consumes: MurmurHash3(seed).hash(x).hash(y)
      hashes the concatenation seed + x + y. */
  function HashKey(p: Process, counter: nat): string
  {
    p.moduleFile + Decimal(p.pid) + Decimal(counter)
  }

  /** `.result()` of the hash: an unsigned 32-bit value. */
  function Hash32(p: Process, counter: nat): (h: nat)
    ensures h < 0x1_0000_0000
  {
    p.murmur(HashKey(p, counter)) % 0x1_0000_0000
  }

  /** The name `getTmpname(filename)` returns when the pre-incremented counter is `counter`. */
  function TmpFor(p: Process, filename: Path, counter: nat): Path
  {
    filename + "." + Decimal(Hash32(p, counter))
  }

  /** Everything before the last '/', or empty when there is none. */
  function DirPart(path: Path): Path
    decreases |path|
  {
    if path == [] then []
    else if path[|path| - 1] == '/' then path[..|path| - 1]
    else DirPart(path[..|path| - 1])
  }

  /** Appending characters that are not '/' keeps the directory part. */
  lemma {:induction false} DirPartSlashFreeSuffix(path: Path, suffix: string)
    requires forall i :: 0 <= i < |suffix| ==> suffix[i] != '/'
    ensures DirPart(path + suffix) == DirPart(path)
    decreases |suffix|
  {
    if suffix == [] {
      assert path + suffix == path;
    } else {
      var front := suffix[..|suffix| - 1];
      var q := path + suffix;
      assert q[|q| - 1] == suffix[|suffix| - 1];
      assert q[..|q| - 1] == path + front;
      DirPartSlashFreeSuffix(path, front);
    }
  }

  /** Two different counter values feed the hash two different strings, so the
      only way two temp names can coincide is a hash collision. */
  lemma HashKeysDistinct(p: Process, c1: nat, c2: nat)
    requires c1 != c2
    ensures HashKey(p, c1) != HashKey(p, c2)
  {
    var prefix := p.moduleFile + Decimal(p.pid);
    var k1, k2 := HashKey(p, c1), HashKey(p, c2);
    assert k1 == prefix + Decimal(c1) && k2 == prefix + Decimal(c2);
    if k1 == k2 {
      assert k1[|prefix|..] == Decimal(c1);
      assert k2[|prefix|..] == Decimal(c2);
      DecimalInjective(c1, c2);
    }
  }

  /** The temp name is the filename, a dot and a decimal number; it therefore
      differs from the filename and lies in the same directory. */
  lemma TmpNameShape(p: Process, filename: Path, counter: nat)
    ensures var t := TmpFor(p, filename, counter);
      |t| > |filename| + 1 && t[..|filename|] == filename && t[|filename|] == '.'
      && IsDigits(t[|filename| + 1..])
      && t != filename
      && DirPart(t) == DirPart(filename)
  {
    var t := TmpFor(p, filename, counter);
    var suffix := "." + Decimal(Hash32(p, counter));
    assert t == filename + suffix;
    assert t[|filename| + 1..] == Decimal(Hash32(p, counter));
    assert forall i :: 0 <= i < |suffix| ==> suffix[i] != '/' by {
      forall i | 0 <= i < |suffix| ensures suffix[i] != '/' {
        if i > 0 { assert suffix[i] == Decimal(Hash32(p, counter))[i - 1]; }
      }
    }
    DirPartSlashFreeSuffix(filename, suffix);
  }
}
