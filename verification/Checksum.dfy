/** The position-weighted sample hash of a bank that comes in parts. */
module Checksum {
  import opened Basics
  import opened Layout
  import opened Reader

  const WEIGHT: int := 1000000007
  const SAMPLES: int := 1000000
  const INT64_MAX: int := 9223372036854775807

  /** How far apart the samples lie. */
  function Stride(total: nat): (s: nat)
    ensures s >= 1
  {
    if total / SAMPLES < 1 then 1 else total / SAMPLES
  }

  function Term(b: Byte, pos: nat): nat {
    (b as int) * (pos % WEIGHT + 1)
  }

  /** Over the first n bytes of one sequence: every stride-th byte, weighted by its position. */
  function Hash(bytes: seq<Byte>, stride: nat, n: nat): nat
    requires stride > 0 && n <= |bytes|
  {
    if n == 0 then 0 else Hash(bytes, stride, n - 1) + if (n - 1) % stride == 0 then Term(bytes[n - 1], n - 1) else 0
  }

  // ------------------------------------------------------------ multiples of the stride

  lemma DivModUnique(x: int, s: nat, q: int, r: int)
    requires s > 0 && x == q * s + r && 0 <= r < s
    ensures x % s == r
  {
    var p := x / s;
    assert x == p * s + x % s;
    if p < q {
      MulMono(s, p + 1, q);
    } else if q < p {
      MulMono(s, q + 1, p);
    }
  }

  /** Between neighbouring multiples of the stride there is no other. */
  lemma NoMultiple(a: int, s: nat, g: int)
    requires s > 0 && a % s == 0 && a - s < g < a + s && g != a
    ensures g % s != 0
  {
    var q := a / s;
    assert a == q * s;
    if g > a {
      DivModUnique(g, s, q, g - a);
    } else {
      assert (q - 1) * s == q * s - s;
      DivModUnique(g, s, q - 1, g - a + s);
    }
  }

  lemma NextMultiple(a: int, s: nat)
    requires s > 0 && a % s == 0
    ensures (a + s) % s == 0
  {
    var q := a / s;
    assert (q + 1) * s == q * s + s;
    DivModUnique(a + s, s, q + 1, 0);
  }

  /** The first sample of a part that starts at `offset`. */
  lemma FirstMultiple(offset: nat, s: nat)
    requires s > 0
    ensures 0 <= (0 - offset) % s < s && (offset + (0 - offset) % s) % s == 0
  {
    var q := (0 - offset) / s;
    assert 0 - offset == q * s + (0 - offset) % s;
    assert offset + (0 - offset) % s == (-q) * s;
    DivModUnique(offset + (0 - offset) % s, s, -q, 0);
  }

  lemma {:induction false} SkipHash(bytes: seq<Byte>, s: nat, a: nat, b: nat)
    requires s > 0 && a <= b <= |bytes| && forall g :: a <= g < b ==> Misses(g, s)
    ensures Hash(bytes, s, b) == Hash(bytes, s, a)
    decreases b
  {
    if a < b {
      assert Misses(b - 1, s);
      SkipHash(bytes, s, a, b - 1);
    }
  }

  predicate Misses(g: int, s: nat)
    requires s > 0
  {
    g % s != 0
  }

  /** One sample at the multiple a, then nothing before b. */
  lemma SampleHash(bytes: seq<Byte>, s: nat, a: nat, b: nat)
    requires s > 0 && a % s == 0 && a < b <= |bytes| && b <= a + s
    ensures Hash(bytes, s, b) == Hash(bytes, s, a) + Term(bytes[a], a)
  {
    forall g | a + 1 <= g < b
      ensures Misses(g, s)
    {
      NoMultiple(a, s, g);
    }
    SkipHash(bytes, s, a + 1, b);
  }

  // ------------------------------------------------------------ what the hash sees

  /** Changing one byte changes the hash by the difference times the weight of its place, if it is sampled at all. */
  lemma {:induction false} HashUpdate(bytes: seq<Byte>, s: nat, n: nat, i: nat, b: Byte)
    requires s > 0 && n <= |bytes| && i < |bytes|
    ensures Hash(bytes[i := b], s, n) == Hash(bytes, s, n) +
              if i < n && i % s == 0 then (b as int - bytes[i] as int) * (i % WEIGHT + 1) else 0
  {
    if n > 0 {
      HashUpdate(bytes, s, n - 1, i, b);
      if n - 1 == i {
        var w := i % WEIGHT + 1;
        assert (b as int - bytes[i] as int) * w == (b as int) * w - (bytes[i] as int) * w;
      }
    }
  }

  /** A bank of zeros hashes to 0; with `HashUpdate` this fixes the hash of every bank. */
  lemma {:induction false} HashZeros(bytes: seq<Byte>, s: nat, n: nat)
    requires s > 0 && n <= |bytes| && forall i :: 0 <= i < |bytes| ==> bytes[i] == 0
    ensures Hash(bytes, s, n) == 0
  {
    if n > 0 {
      HashZeros(bytes, s, n - 1);
    }
  }

  /** A changed byte shows exactly when it is sampled. */
  lemma ChangeShows(bytes: seq<Byte>, s: nat, i: nat, b: Byte)
    requires s > 0 && i < |bytes| && b != bytes[i]
    ensures Hash(bytes[i := b], s, |bytes|) != Hash(bytes, s, |bytes|) <==> i % s == 0
  {
    HashUpdate(bytes, s, |bytes|, i, b);
    if i % s == 0 {
      NonZeroProduct(b as int - bytes[i] as int, i % WEIGHT + 1);
    }
  }

  lemma NonZeroProduct(a: int, b: int)
    requires a != 0 && b != 0
    ensures a * b != 0
  {
  }

  /** Exchanging two sampled bytes shows exactly when they differ and their places have different weights. */
  lemma ExchangeShows(bytes: seq<Byte>, s: nat, i: nat, j: nat)
    requires s > 0 && i < |bytes| && j < |bytes| && i % s == 0 && j % s == 0
    ensures Hash(bytes[i := bytes[j]][j := bytes[i]], s, |bytes|) != Hash(bytes, s, |bytes|) <==>
            bytes[i] != bytes[j] && i % WEIGHT != j % WEIGHT
  {
    var once := bytes[i := bytes[j]];
    HashUpdate(bytes, s, |bytes|, i, bytes[j]);
    HashUpdate(once, s, |bytes|, j, bytes[i]);
    var d, u, v := bytes[j] as int - bytes[i] as int, i % WEIGHT + 1, j % WEIGHT + 1;
    if i != j {
      assert Hash(once[j := bytes[i]], s, |bytes|) == Hash(bytes, s, |bytes|) + d * u + (-d) * v;
      ExchangeGain(d, u, v);
    }
  }

  /** Places less than WEIGHT apart have different weights, so such an exchange always shows. */
  lemma NearExchangeShows(bytes: seq<Byte>, s: nat, i: nat, j: nat)
    requires s > 0 && i < j < |bytes| && i % s == 0 && j % s == 0 && bytes[i] != bytes[j]
    requires j - i < WEIGHT
    ensures Hash(bytes[i := bytes[j]][j := bytes[i]], s, |bytes|) != Hash(bytes, s, |bytes|)
  {
    var p, q := i / WEIGHT, j / WEIGHT;
    assert i == p * WEIGHT + i % WEIGHT && j == q * WEIGHT + j % WEIGHT;
    ExchangeShows(bytes, s, i, j);
  }

  lemma ExchangeGain(d: int, u: int, v: int)
    ensures d * u + (-d) * v != 0 <==> d != 0 && u != v
  {
    assert d * u + (-d) * v == d * (u - v);
    if d != 0 && u != v {
      NonZeroProduct(d, u - v);
    }
  }

  // ------------------------------------------------------------ bounds

  /** The positions sampled among the first n. */
  ghost function Sampled(s: nat, n: nat): set<nat>
    requires s > 0
  {
    set p | 0 <= p < n && p % s == 0
  }

  lemma {:induction false} SampledSize(s: nat, n: nat)
    requires s > 0
    ensures |Sampled(s, n)| == (n + s - 1) / s
  {
    if n == 0 {
      assert Sampled(s, 0) == {};
      DivUnique(s - 1, s, 0, s - 1);
    } else {
      SampledSize(s, n - 1);
      SampledNext(s, n - 1);
      CeilingStep(n - 1, s);
    }
  }

  lemma SampledNext(s: nat, n: nat)
    requires s > 0
    ensures |Sampled(s, n + 1)| == |Sampled(s, n)| + if n % s == 0 then 1 else 0
  {
    assert Sampled(s, n + 1) == if n % s == 0 then Sampled(s, n) + {n} else Sampled(s, n);
  }

  lemma DivUnique(x: int, s: nat, q: int, r: int)
    requires s > 0 && x == q * s + r && 0 <= r < s
    ensures x / s == q
  {
    DivModUnique(x, s, q, r);
    var p := x / s;
    assert x == p * s + x % s;
    if p < q {
      MulMono(s, p + 1, q);
    } else if q < p {
      MulMono(s, q + 1, p);
    }
  }

  /** Rounding up grows by one exactly at the multiples. */
  lemma CeilingStep(m: nat, s: nat)
    requires s > 0
    ensures (m + 1 + s - 1) / s == (m + s - 1) / s + if m % s == 0 then 1 else 0
  {
    var q, r := m / s, m % s;
    assert m == q * s + r;
    assert (q + 1) * s == q * s + s;
    DivUnique(m + s, s, q + 1, r);
    if r == 0 {
      DivUnique(m + s - 1, s, q, s - 1);
    } else {
      DivUnique(m + s - 1, s, q + 1, r - 1);
    }
  }

  lemma EnoughSteps(s: nat, count: nat, total: nat)
    requires s > 0 && s * SAMPLES <= total <= count * s
    ensures SAMPLES <= count
  {
    if count < SAMPLES {
      MulMono(s, count + 1, SAMPLES);
    }
  }

  /** Every byte of a bank below the wanted number of samples is sampled, and never fewer than that number of a larger one. */
  lemma EnoughSamples(total: nat)
    ensures Min(total, SAMPLES) <= |Sampled(Stride(total), total)| <= 2 * SAMPLES
    ensures total < 2 * SAMPLES ==> forall p: nat :: p < total ==> p in Sampled(Stride(total), total)
  {
    var s := Stride(total);
    var count := (total + s - 1) / s;
    SampledSize(s, total);
    assert total + s - 1 == count * s + (total + s - 1) % s;
    assert (count - 1) * s == count * s - s;
    assert total <= count * s;
    if total > 0 {
      FewSamples(total, count);
    }
    assert s == 1 || s * SAMPLES <= total;
    if s == 1 {
      assert count * s == count;
    } else {
      EnoughSteps(s, count, total);
    }
  }

  /** However large the bank, it yields at most two million samples. */
  lemma FewSamples(total: nat, count: nat)
    requires (count - 1) * Stride(total) < total
    ensures count <= 2 * SAMPLES
  {
    var s := Stride(total);
    assert total < 2 * SAMPLES * s by {
      assert total < (total / SAMPLES + 1) * SAMPLES;
    }
    if 2 * SAMPLES <= count - 1 {
      MulMono(s, 2 * SAMPLES, count - 1);
    }
  }

  lemma TermBound(b: Byte, pos: nat)
    ensures Term(b, pos) <= 255 * WEIGHT
  {
    assert pos % WEIGHT + 1 <= WEIGHT;
    var w := pos % WEIGHT + 1;
    assert (b as int) * w <= 255 * w;
  }

  // ------------------------------------------------------------ the hash as computed

  /** After `count` samples from `first` on, the next is at i, the last was inside the bank, and the sum is bounded. */
  ghost predicate Counts(count: nat, first: nat, i: nat, stride: nat, sum: nat, total: nat) {
    && i == first + count * stride
    && (count > 0 ==> (count - 1) * stride < total)
    && sum <= count * (255 * WEIGHT)
  }

  lemma CountsOn(count: nat, first: nat, i: nat, stride: nat, sum: nat, total: nat, term: nat)
    requires Counts(count, first, i, stride, sum, total) && i < total && term <= 255 * WEIGHT
    ensures Counts(count + 1, first, i + stride, stride, sum + term, total)
  {
    assert (count + 1) * stride == count * stride + stride;
    assert (count + 1) * (255 * WEIGHT) == count * (255 * WEIGHT) + 255 * WEIGHT;
  }

  /** So few samples fit in 64 bits. */
  lemma CountsFit(count: nat, first: nat, i: nat, stride: nat, sum: nat, total: nat)
    requires Counts(count, first, i, stride, sum, total) && stride == Stride(total)
    ensures sum <= INT64_MAX
  {
    FewSamples(total, count);
    MulMono(255 * WEIGHT, count, 2 * SAMPLES);
  }

  /** The samples of one part: what the hash gains over the part, and no more than 64 bits hold. */
  method PartSum(part: seq<Byte>, offset: nat, stride: nat, ghost bytes: seq<Byte>) returns (sum: nat)
    requires stride == Stride(|bytes|) && offset + |part| <= |bytes| && bytes[offset..offset + |part|] == part
    ensures sum == Hash(bytes, stride, offset + |part|) - Hash(bytes, stride, offset)
    ensures sum <= INT64_MAX
  {
    sum := 0;
    FirstMultiple(offset, stride);
    var first := (0 - offset) % stride;
    ghost var sampled := if first < |part| then offset + first else offset + |part|;
    forall g | offset <= g < sampled
      ensures Misses(g, stride)
    {
      NoMultiple(offset + first, stride, g);
    }
    SkipHash(bytes, stride, offset, sampled);
    if first < |part| {
      var i := first;
      ghost var count := 0;
      while i < |part|
        invariant first <= i && (offset + i) % stride == 0
        invariant sampled == (if i < |part| then offset + i else offset + |part|)
        invariant sum == Hash(bytes, stride, sampled) - Hash(bytes, stride, offset)
        invariant Counts(count, first, i, stride, sum, |bytes|)
      {
        var next := i + stride;
        sampled := if next < |part| then offset + next else offset + |part|;
        SampleHash(bytes, stride, offset + i, sampled);
        NextMultiple(offset + i, stride);
        TermBound(part[i], offset + i);
        CountsOn(count, first, i, stride, sum, |bytes|, Term(part[i], offset + i));
        sum := sum + Term(part[i], offset + i);
        i, count := next, count + 1;
      }
      CountsFit(count, first, i, stride, sum, |bytes|);
    }
  }

  /** The bank's hash is the hash of the whole byte sequence, however it was cut into parts. */
  method BankHash(parts: seq<seq<Byte>>) returns (h: nat)
    ensures h == Hash(Flatten(parts), Stride(|Flatten(parts)|), |Flatten(parts)|)
  {
    ghost var bytes := Flatten(parts);
    var total := 0;
    for k := 0 to |parts|
      invariant total == |Flatten(parts[..k])|
    {
      assert parts[..k + 1] == parts[..k] + [parts[k]];
      FlattenAppend(parts[..k], parts[k]);
      total := total + |parts[k]|;
    }
    assert parts[..|parts|] == parts;
    var stride := Stride(total);
    h := 0;
    var offset := 0;
    for k := 0 to |parts|
      invariant offset == |Flatten(parts[..k])| <= |bytes| && h == Hash(bytes, stride, offset)
    {
      PartInWhole(parts, k);
      var sum := PartSum(parts[k], offset, stride, bytes);
      h := h + sum;
      offset := offset + |parts[k]|;
    }
  }

  lemma PartInWhole(parts: seq<seq<Byte>>, k: nat)
    requires k < |parts|
    ensures var at := |Flatten(parts[..k])|;
            && at + |parts[k]| == |Flatten(parts[..k + 1])| <= |Flatten(parts)|
            && Flatten(parts)[at..at + |parts[k]|] == parts[k]
  {
    assert parts[..k + 1] == parts[..k] + [parts[k]];
    FlattenAppend(parts[..k], parts[k]);
    assert parts == parts[..k + 1] + parts[k + 1..];
    FlattenConcat(parts[..k + 1], parts[k + 1..]);
  }
}
