/** A cursor codec that meets everything the paging results assume of base64url and JSON. */
module PagingWitness {
  import opened Results
  import opened CapabilityPaging

  function Pow2(n: nat): nat { if n == 0 then 1 else 2 * Pow2(n - 1) }

  /** A number in the two letters 'A' and 'B', the least significant last. */
  function Written(n: nat): string
    decreases n
  {
    if n < 2 then [Letter(n)] else Written(n / 2) + [Letter(n % 2)]
  }

  function Letter(bit: nat): char { if bit == 0 then 'A' else 'B' }

  function Read(text: string): nat {
    if text == "" then 0 else 2 * Read(text[..|text| - 1]) + if text[|text| - 1] == 'A' then 0 else 1
  }

  lemma ReadLast(text: string, c: char)
    ensures Read(text + [c]) == 2 * Read(text) + if c == 'A' then 0 else 1
  {
    assert (text + [c])[..|text|] == text;
  }

  lemma {:induction false} WrittenReads(n: nat)
    ensures Read(Written(n)) == n
    decreases n
  {
    if n < 2 {
      OneLetterReads(n);
    } else {
      var half, bit := n / 2, n % 2;
      WrittenReads(half);
      LetterBehind(Written(half), bit);
    }
  }

  lemma OneLetterReads(bit: nat)
    requires bit < 2
    ensures Read([Letter(bit)]) == bit
  {
    assert [Letter(bit)][..0] == "";
  }

  lemma LetterBehind(text: string, bit: nat)
    requires bit < 2
    ensures Read(text + [Letter(bit)]) == 2 * Read(text) + bit
  {
    ReadLast(text, Letter(bit));
  }

  lemma {:induction false} WrittenFits(n: nat, k: nat)
    requires n < Pow2(k) && k >= 1
    ensures 1 <= |Written(n)| <= k
    ensures forall i :: 0 <= i < |Written(n)| ==> CursorUnit(Written(n)[i])
    decreases n
  {
    if n >= 2 {
      assert k != 1 by { assert Pow2(0) == 1; }
      WrittenFits(n / 2, k - 1);
    }
  }

  /** Of a search's cursors, only the offset is written; reading supplies the search. */
  function Witness(own: Fingerprint): Codec {
    Codec((p: Payload) => Written(p.offset),
          (text: string) => Some(Fields(Some(CURSOR_SCHEMA_VERSION), Some(own), Some(Read(text) as real))))
  }

  lemma WitnessLawful(own: Fingerprint, most: nat)
    requires most < Pow2(MAX_CURSOR_LENGTH)
    ensures Lawful(Witness(own), own, most)
  {
    forall offset: nat | offset <= most
      ensures CursorText(Witness(own).encode(CursorPayload(own, offset)))
      ensures Witness(own).decode(Witness(own).encode(CursorPayload(own, offset)))
              == Some(Fields(Some(CURSOR_SCHEMA_VERSION), Some(own), Some(offset as real)))
    {
      WrittenReads(offset);
      WrittenFits(offset, MAX_CURSOR_LENGTH);
    }
  }

  /** With this codec, any directory of fewer than 2^2048 capabilities meets the assumption of the paging results. */
  lemma BindingLawful(binding: Binding, filter: Filter)
    requires |Found(binding, filter)| < Pow2(MAX_CURSOR_LENGTH)
    ensures LawfulFor(binding.(codec := Witness(Fingerprint(binding.manifest, filter))), filter)
  {
    var own := Fingerprint(binding.manifest, filter);
    assert Found(binding.(codec := Witness(own)), filter) == Found(binding, filter);
    WitnessLawful(own, |Found(binding, filter)|);
  }
}
