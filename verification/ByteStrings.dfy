/** Byte strings and their lexicographic order, which is how SQLite compares
    TEXT and how Go compares strings. */
module ByteStrings {
  type Byte = x: int | 0 <= x < 256
  type Bytes = seq<Byte>

  /** a comes strictly before b. */
  predicate Before(a: Bytes, b: Bytes) {
    b != [] && (a == [] || a[0] < b[0] || (a[0] == b[0] && Before(a[1..], b[1..])))
  }

  lemma {:induction false} BeforeTotal(a: Bytes, b: Bytes)
    ensures Before(a, b) || a == b || Before(b, a)
  {
    if a != [] && b != [] && a[0] == b[0] {
      BeforeTotal(a[1..], b[1..]);
      assert a == [a[0]] + a[1..] && b == [b[0]] + b[1..];
    }
  }

  lemma {:induction false} BeforeAsymmetric(a: Bytes, b: Bytes)
    requires Before(a, b)
    ensures !Before(b, a) && a != b
  {
    if a != [] && a[0] == b[0] {
      BeforeAsymmetric(a[1..], b[1..]);
    }
  }

  lemma {:induction false} BeforeTransitive(a: Bytes, b: Bytes, c: Bytes)
    requires Before(a, b) && Before(b, c)
    ensures Before(a, c)
  {
    if a != [] && a[0] == b[0] == c[0] {
      BeforeTransitive(a[1..], b[1..], c[1..]);
    }
  }

  /** The first k bytes agree, and there a ends or has the smaller byte. */
  predicate DiffersAt(a: Bytes, b: Bytes, k: nat) {
    && k <= |a| && k < |b| && a[..k] == b[..k]
    && (k == |a| || a[k] < b[k])
  }

  lemma HeadsAgree(a: Bytes, b: Bytes, k: nat)
    requires a != [] && b != []
    ensures DiffersAt(a, b, k) ==> k == 0 || a[0] == b[0]
  {
    if DiffersAt(a, b, k) && k > 0 { assert a[..k][0] == b[..k][0]; }
  }

  lemma {:induction false} BeforeIsLexicographic(a: Bytes, b: Bytes)
    ensures Before(a, b) <==> exists k: nat :: DiffersAt(a, b, k)
  {
    if a == [] || b == [] {
      assert b != [] ==> DiffersAt(a, b, 0);
    } else if a[0] == b[0] {
      BeforeIsLexicographic(a[1..], b[1..]);
      if k: nat :| DiffersAt(a[1..], b[1..], k) {
        assert a[..k + 1] == [a[0]] + a[1..][..k] && b[..k + 1] == [b[0]] + b[1..][..k];
        assert DiffersAt(a, b, k + 1);
      }
      if k: nat :| DiffersAt(a, b, k) {
        assert k > 0 && a[1..][..k - 1] == a[..k][1..] && b[1..][..k - 1] == b[..k][1..];
        assert DiffersAt(a[1..], b[1..], k - 1);
      }
    } else {
      assert a[0] < b[0] ==> DiffersAt(a, b, 0);
      forall k: nat ensures DiffersAt(a, b, k) ==> k == 0 {
        HeadsAgree(a, b, k);
      }
    }
  }

  predicate IsSpace(b: Byte) {
    b == 32 || 9 <= b <= 13
  }

  /** The text without the white space at its ends. */
  function Trim(text: Bytes): Bytes {
    if text == [] then []
    else if IsSpace(text[0]) then Trim(text[1..])
    else if IsSpace(text[|text| - 1]) then Trim(text[..|text| - 1])
    else text
  }

  predicate Blank(text: Bytes) {
    Trim(text) == []
  }

  predicate OnlySpaces(text: Bytes) {
    forall b :: b in text ==> b == 32 || 9 <= b <= 13
  }

  /** Only white space is blank. */
  lemma {:induction false} BlankIffSpaces(text: Bytes)
    ensures Blank(text) <==> OnlySpaces(text)
  {
    if text != [] {
      assert text[0] in text;
      if IsSpace(text[0]) {
        BlankIffSpaces(text[1..]);
        assert forall b :: b in text <==> b == text[0] || b in text[1..];
      } else if IsSpace(text[|text| - 1]) {
        BlankIffSpaces(text[..|text| - 1]);
        assert text[0] in text[..|text| - 1];
      }
    }
  }
}
