/** The at-rest envelope of an access key's password: nonce prefix, AEAD, padded base64. */
module SecretBox {
  import opened Bytes
  import Base64

  /** The nonce size of AES-GCM as the Go library builds it. */
  const NONCE_SIZE: nat := 12

  type Nonce = n: Text | |n| == NONCE_SIZE witness seq(NONCE_SIZE, _ => 0)

  /** Authenticated encryption under one fixed key; the cipher itself is not modelled. */
  datatype Aead = Aead(seal: (Nonce, Text) -> Text, open: (Nonce, Text) -> Option<Text>) {

    /** What is assumed of it: it opens exactly what it sealed. */
    ghost predicate Lawful() {
      forall n: Nonce, c: Text, p: Text :: open(n, c) == Some(p) <==> c == seal(n, p)
    }
  }

  function Encrypt(box: Aead, nonce: Nonce, plaintext: Text): Text {
    Base64.EncodePadded(nonce + box.seal(nonce, plaintext))
  }

  function Decrypt(box: Aead, encoded: Text): Option<Text> {
    var sealed := Base64.DecodePadded(encoded);
    if sealed.None? || |sealed.value| < NONCE_SIZE then None
    else box.open(sealed.value[..NONCE_SIZE], sealed.value[NONCE_SIZE..])
  }

  lemma DecryptEncrypt(box: Aead, nonce: Nonce, plaintext: Text)
    requires box.Lawful()
    ensures Decrypt(box, Encrypt(box, nonce, plaintext)) == Some(plaintext)
  {
    var sealed := nonce + box.seal(nonce, plaintext);
    Base64.DecodeEncodePadded(sealed);
    assert sealed[..NONCE_SIZE] == nonce && sealed[NONCE_SIZE..] == box.seal(nonce, plaintext);
  }

  /** A stored secret opens to `plaintext` exactly when it frames a sealing of `plaintext`. */
  lemma DecryptsExactly(box: Aead, encoded: Text, plaintext: Text)
    requires box.Lawful()
    ensures Decrypt(box, encoded) == Some(plaintext)
            <==> exists nonce: Nonce ::
                   Base64.DecodePadded(encoded) == Some(nonce + box.seal(nonce, plaintext))
  {
    var sealed := Base64.DecodePadded(encoded);
    if Decrypt(box, encoded) == Some(plaintext) {
      var nonce: Nonce := sealed.value[..NONCE_SIZE];
      assert sealed.value == nonce + sealed.value[NONCE_SIZE..];
      assert sealed == Some(nonce + box.seal(nonce, plaintext));
    }
    forall nonce: Nonce | sealed == Some(nonce + box.seal(nonce, plaintext))
      ensures Decrypt(box, encoded) == Some(plaintext)
    {
      assert sealed.value[..NONCE_SIZE] == nonce;
      assert sealed.value[NONCE_SIZE..] == box.seal(nonce, plaintext);
    }
  }
}
