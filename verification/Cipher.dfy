/**
 The secret cipher's stored-value format and keyring, as the key-rotation tool uses them.

 A sealed payload is modelled as an ideal box: it opens under exactly the key that sealed
 it. Random nonces are abstracted away, so sealing is a function of key and text.
 */
module Cipher {
  import opened Common

  type Key = nat

  datatype Box = Sealed(key: Key, text: string) | Garbage(bits: string)

  /** A stored column value, by its version tag. */
  datatype Stored =
    | Untagged(text: string)               // legacy plaintext, passed through
    | V1(box: Box)                         // encv1:<box>
    | V2(kekId: string, box: Box)          // encv2:<kekId>:<box>
    | V2NoLabel(rest: string)              // encv2:<rest>, no second colon

  datatype Opened = Ok(text: string) | Err

  /** Keys by the id text a tag carries; several spellings may lead to one key. */
  datatype Ring = Ring(keys: map<string, Key>, active: string, legacy: Option<Key>) {
    /** What the tool insists on before it starts: keyring mode with a usable active key. */
    predicate Valid() { active in keys }
  }

  function Open(key: Key, box: Box): Opened {
    if box.Sealed? && box.key == key then Ok(box.text) else Err
  }

  function Decrypt(ring: Ring, v: Stored): Opened {
    match v
    case Untagged(text) => Ok(text)
    case V1(box) => if ring.legacy.None? then Err else Open(ring.legacy.value, box)
    case V2(kekId, box) =>
      if kekId !in ring.keys then Err else Open(ring.keys[kekId], box)
    case V2NoLabel(_) => Err
  }

  /** Sealing keeps the empty string as it is. */
  function Encrypt(ring: Ring, text: string): Stored
    requires ring.Valid()
  {
    if text == "" then Untagged("") else V2(ring.active, Sealed(ring.keys[ring.active], text))
  }

  predicate IsEncrypted(v: Stored) { !v.Untagged? }

  /** The literal prefix test `encv2:<active>:`. */
  predicate HasActivePrefix(ring: Ring, v: Stored) { v.V2? && v.kekId == ring.active }

  predicate Stale(ring: Ring, v: Stored) { IsEncrypted(v) && !HasActivePrefix(ring, v) }

  predicate Openable(ring: Ring, v: Stored) { Stale(ring, v) && Decrypt(ring, v).Ok? }

  /** What one pass of the tool does to one value. */
  function Reseal(ring: Ring, v: Stored): Stored
    requires ring.Valid()
  {
    if Openable(ring, v) then Encrypt(ring, Decrypt(ring, v).text) else v
  }

  lemma EncryptRoundTrip(ring: Ring, text: string)
    requires ring.Valid()
    ensures Decrypt(ring, Encrypt(ring, text)) == Ok(text)
    ensures !Stale(ring, Encrypt(ring, text))
    ensures text != "" ==> HasActivePrefix(ring, Encrypt(ring, text))
  {
  }

  /** Re-sealing keeps the meaning, ends staleness, and always changes a stale value. */
  lemma ResealMeaning(ring: Ring, v: Stored)
    requires ring.Valid()
    ensures Decrypt(ring, Reseal(ring, v)) == Decrypt(ring, v)
    ensures !Openable(ring, Reseal(ring, v))
    ensures Openable(ring, v) ==> Reseal(ring, v) != v && !Stale(ring, Reseal(ring, v))
    ensures !Openable(ring, v) ==> Reseal(ring, v) == v
  {
    if Openable(ring, v) {
      EncryptRoundTrip(ring, Decrypt(ring, v).text);
    }
  }

  /** The ring left after every key but the active one, and the legacy key, are dropped. */
  function Retired(ring: Ring): Ring
    requires ring.Valid()
  {
    Ring(map[ring.active := ring.keys[ring.active]], ring.active, None)
  }

  /** A readable value survives the retirement of the old keys exactly when it is not stale. */
  lemma SurvivesRetirement(ring: Ring, v: Stored)
    requires ring.Valid() && Decrypt(ring, v).Ok?
    ensures Decrypt(Retired(ring), v) == (if Stale(ring, v) then Err else Decrypt(ring, v))
  {
  }
}
