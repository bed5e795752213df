/** The canonical hash preimage (internal/pipeline/types.go): a domain, a zero
    byte, then every part behind its length in eight big-endian bytes. */
module HashParts {
  import opened ByteStrings

  /** SHA-256 of a preimage; taken as collision-free. */
  datatype Digest = Sha256(preimage: Bytes)

  const NUL: Byte := 0

  const TWO_64 := 0x1_0000_0000_0000_0000

  /** Go's len is an int, so no slice is longer. */
  predicate Fits(parts: seq<Bytes>) {
    forall i :: 0 <= i < |parts| ==> |parts[i]| < TWO_64
  }

  // ----- lengths -----

  function Pow256(k: nat): (p: nat)
    ensures p > 0
  {
    if k == 0 then 1 else 256 * Pow256(k - 1)
  }

  /** n in k big-endian bytes, higher digits dropped. */
  function BigEndian(n: nat, k: nat): (s: Bytes)
    ensures |s| == k
  {
    if k == 0 then [] else BigEndian(n / 256, k - 1) + [n % 256]
  }

  lemma {:induction false} BigEndianInjective(m: nat, n: nat, k: nat)
    requires m < Pow256(k) && n < Pow256(k) && BigEndian(m, k) == BigEndian(n, k)
    ensures m == n
  {
    if k > 0 {
      var a, b := BigEndian(m, k), BigEndian(n, k);
      assert a[..k - 1] == BigEndian(m / 256, k - 1) && b[..k - 1] == BigEndian(n / 256, k - 1);
      assert a[k - 1] == m % 256 && b[k - 1] == n % 256;
      BigEndianInjective(m / 256, n / 256, k - 1);
    }
  }

  /** Digit i from the right is the number shifted right by i bytes. */
  lemma {:induction false} DigitAt(n: nat, k: nat, i: nat)
    requires i < k
    ensures BigEndian(n, k)[k - 1 - i] == n / Pow256(i) % 256
  {
    if i > 0 {
      DigitAt(n / 256, k - 1, i - 1);
      DivDiv(n, Pow256(i - 1));
    }
  }

  lemma DivDiv(n: nat, p: nat)
    requires p > 0
    ensures n / 256 / p == n / (256 * p)
  {
    var q, r := n / 256 / p, n / 256 % p;
    assert n / 256 == q * p + r;
    assert n == 256 * (q * p + r) + n % 256;
    assert 256 * (q * p) == q * (256 * p);
    QuotientIs(n, 256 * p, q, 256 * r + n % 256);
  }

  lemma NextMultiple(a: nat, b: nat, d: nat)
    ensures a < b ==> (a + 1) * d <= b * d
  {}

  lemma QuotientIs(n: nat, d: nat, q: nat, r: nat)
    requires n == q * d + r && r < d
    ensures n / d == q
  {
    var e := n / d;
    assert n == e * d + n % d;
    NextMultiple(e, q, d);
    NextMultiple(q, e, d);
  }

  // ----- the preimage -----

  function Framed(part: Bytes): Bytes {
    BigEndian(|part|, 8) + part
  }

  function Frames(parts: seq<Bytes>): Bytes {
    if parts == [] then [] else Frames(parts[..|parts| - 1]) + Framed(parts[|parts| - 1])
  }

  function Preimage(domain: Bytes, parts: seq<Bytes>): Bytes {
    domain + [NUL] + Frames(parts)
  }

  lemma Regroup(a: Bytes, b: Bytes, c: Bytes)
    ensures (a + b) + c == a + (b + c)
  {}

  /** The same frames, read from the front. */
  lemma {:induction false} FramesFromFront(parts: seq<Bytes>)
    requires parts != []
    ensures Frames(parts) == Framed(parts[0]) + Frames(parts[1..])
  {
    var n := |parts| - 1;
    if n == 0 {
      assert parts[..0] == [] && parts[1..] == [];
    } else {
      FramesFromFront(parts[..n]);
      FramesSnoc(parts[1..]);
      assert parts[..n][1..] == parts[1..][..n - 1];
      Regroup(Framed(parts[0]), Frames(parts[..n][1..]), Framed(parts[n]));
    }
  }

  lemma FramesSnoc(parts: seq<Bytes>)
    requires parts != []
    ensures Frames(parts) == Frames(parts[..|parts| - 1]) + Framed(parts[|parts| - 1])
  {}

  lemma FramedInjective(p: Bytes, s: Bytes, q: Bytes, t: Bytes)
    requires |p| < TWO_64 && |q| < TWO_64 && Framed(p) + s == Framed(q) + t
    ensures p == q && s == t
  {
    var a, b := Framed(p) + s, Framed(q) + t;
    assert a[..8] == BigEndian(|p|, 8) && b[..8] == BigEndian(|q|, 8);
    assert Pow256(8) == TWO_64;
    BigEndianInjective(|p|, |q|, 8);
    assert a[8..8 + |p|] == p && b[8..8 + |p|] == q;
    assert a[8 + |p|..] == s && b[8 + |p|..] == t;
  }

  lemma {:induction false} FramesInjective(ps: seq<Bytes>, qs: seq<Bytes>)
    requires Fits(ps) && Fits(qs) && Frames(ps) == Frames(qs)
    ensures ps == qs
  {
    if ps != [] { FramesFromFront(ps); }
    if qs != [] { FramesFromFront(qs); }
    if ps != [] && qs != [] {
      FramedInjective(ps[0], Frames(ps[1..]), qs[0], Frames(qs[1..]));
      FramesInjective(ps[1..], qs[1..]);
      assert ps == [ps[0]] + ps[1..] && qs == [qs[0]] + qs[1..];
    }
  }

  lemma DomainBytes(d: Bytes, s: Bytes)
    ensures var a := d + [NUL] + s;
      (forall k :: 0 <= k < |d| ==> a[k] == d[k]) && a[|d|] == NUL && a[..|d|] == d && a[|d| + 1..] == s
  {}

  /** The first zero byte ends the domain. */
  lemma DomainInjective(d: Bytes, s: Bytes, e: Bytes, t: Bytes)
    requires NUL !in d && NUL !in e && d + [NUL] + s == e + [NUL] + t
    ensures d == e && s == t
  {
    DomainBytes(d, s);
    DomainBytes(e, t);
  }

  /** The bytes fed to the hash determine a zero-free domain and every part. */
  lemma PreimageInjective(d: Bytes, ps: seq<Bytes>, e: Bytes, qs: seq<Bytes>)
    requires NUL !in d && NUL !in e && Fits(ps) && Fits(qs)
    ensures Preimage(d, ps) == Preimage(e, qs) <==> d == e && ps == qs
  {
    if Preimage(d, ps) == Preimage(e, qs) {
      DomainInjective(d, Frames(ps), e, Frames(qs));
      FramesInjective(ps, qs);
    }
  }

  /** Domains must be zero-free: with a zero byte inside, a domain can swallow
      the frame of a part. */
  lemma ZeroInDomainCollides()
    ensures Preimage([1], [[]]) == Preimage([1, 0, 0, 0, 0, 0, 0, 0, 0], [])
  {}

  /** The layout itself: domain "a", one part "bc". */
  lemma PreimageLayout()
    ensures Preimage([97], [[98, 99]]) == [97, 0, 0, 0, 0, 0, 0, 0, 0, 2, 98, 99]
  {
    EightBytes(2);
    var parts: seq<Bytes> := [[98, 99]];
    assert parts[..0] == [];
    assert Frames(parts) == Framed(parts[0]) == [0, 0, 0, 0, 0, 0, 0, 2, 98, 99];
  }

  lemma EightBytes(n: Byte)
    ensures BigEndian(n, 8) == [0, 0, 0, 0, 0, 0, 0, n]
  {
    assert BigEndian(0, 4) == [0, 0, 0, 0];
    assert BigEndian(0, 7) == BigEndian(0, 4) + [0, 0, 0];
  }

  /** The eight length bytes, filled from the right: byte i is n >> (8 * i). */
  method LengthBytes(n: nat) returns (length: array<Byte>)
    ensures fresh(length) && length[..] == BigEndian(n, 8)
  {
    length := new Byte[8];
    for i := 0 to 8
      invariant forall k :: 8 - i <= k < 8 ==> length[k] == BigEndian(n, 8)[k]
    {
      DigitAt(n, 8, i);
      length[7 - i] := n / Pow256(i) % 256;
    }
  }

  method Hash(domain: Bytes, parts: seq<Bytes>) returns (digest: Digest)
    ensures digest == Sha256(Preimage(domain, parts))
  {
    var written := domain + [NUL];
    for n := 0 to |parts|
      invariant written == Preimage(domain, parts[..n])
    {
      var length := LengthBytes(|parts[n]|);
      assert parts[..n + 1][..n] == parts[..n];
      assert written + length[..] + parts[n] == domain + [NUL] + (Frames(parts[..n]) + (length[..] + parts[n]));
      written := written + length[..];
      written := written + parts[n];
    }
    assert parts[..|parts|] == parts;
    digest := Sha256(written);
  }

  // ----- prompt identities -----

  const PROMPT_EXECUTION_DOMAIN := "doublangu.prompt-execution.v1"

  function Ascii(text: string): Bytes {
    seq(|text|, i requires 0 <= i < |text| => if text[i] < 128 as char then text[i] as int else 127)
  }

  function EffectivePromptVersion(operation: Bytes, generation: Bytes, correction: Bytes, envelope: Bytes): Digest {
    Sha256(Preimage(Ascii(PROMPT_EXECUTION_DOMAIN), [operation, generation, correction, envelope]))
  }

  lemma PromptDomainHasNoZero()
    ensures NUL !in Ascii(PROMPT_EXECUTION_DOMAIN)
  {}

  /** Two captured prompt sets share an identity only if all four fields agree. */
  lemma PromptVersionInjective(o: Bytes, g: Bytes, c: Bytes, e: Bytes, o': Bytes, g': Bytes, c': Bytes, e': Bytes)
    requires Fits([o, g, c, e]) && Fits([o', g', c', e'])
    ensures EffectivePromptVersion(o, g, c, e) == EffectivePromptVersion(o', g', c', e')
            <==> o == o' && g == g' && c == c' && e == e'
  {
    PromptDomainHasNoZero();
    var d := Ascii(PROMPT_EXECUTION_DOMAIN);
    var ps, qs := [o, g, c, e], [o', g', c', e'];
    PreimageInjective(d, ps, d, qs);
    assert ps == qs <==> ps[0] == qs[0] && ps[1] == qs[1] && ps[2] == qs[2] && ps[3] == qs[3];
  }
}
