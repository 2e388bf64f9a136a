/** The announce payload (reticulum-core/src/announce.rs). */
module Announces {
  import opened Base
  import opened Crypto

  datatype Announce = Announce(
    public: Bytes, name: Bytes, random: Bytes, ratchet: Option<Bytes>, signature: Bytes, appData: Bytes)

  function Parse(payload: Bytes, hasRatchet: bool): (r: Result<Announce>)
    ensures r.Ok? ==> |r.value.public| == 64 && |r.value.random| == 10
  {
    var skip := if hasRatchet then 32 else 0;
    if |payload| < 148 + skip then
      Err(Truncated)
    else
      Ok(Announce(
           payload[..64], payload[64..74], payload[74..84],
           if hasRatchet then Some(payload[84..116]) else None,
           payload[84 + skip..148 + skip], payload[148 + skip..]))
  }

  function SignedData(dest: Bytes, public: Bytes, name: Bytes, random: Bytes, ratchet: Option<Bytes>,
                      appData: Bytes): Bytes
  {
    dest + public + name + random + (if ratchet.Some? then ratchet.value else []) + appData
  }

  function Build(c: Suite, id: Identity, dest: Bytes, name: Bytes, random: Bytes, appData: Bytes): Announce {
    var public := Public(c, id);
    Announce(public, name, random, None,
             c.sign(id.sig, SignedData(dest, public, name, random, None, appData)), appData)
  }

  function Payload(a: Announce): Bytes {
    a.public + a.name + a.random + (if a.ratchet.Some? then a.ratchet.value else []) + a.signature + a.appData
  }

  predicate Verified(c: Suite, a: Announce, dest: Bytes) {
    c.verify(SigHalf(a.public), SignedData(dest, a.public, a.name, a.random, a.ratchet, a.appData), a.signature)
  }

  /** The emission time carried in the last five bytes of the random hash, big-endian. */
  function Timestamp(random: Bytes): nat
    requires |random| == 10
  {
    BigEndian(random[5..])
  }

  /** What a node announces, every other node parses back and accepts. */
  lemma BuiltIsVerified(c: Suite, id: Identity, dest: Bytes, name: Bytes, random: Bytes, appData: Bytes)
    requires Lawful(c) && |name| == 10 && |random| == 10
    ensures var a := Build(c, id, dest, name, random, appData);
            && Parse(Payload(a), false) == Ok(a)
            && Verified(c, a, dest)
  {
    PublicHalves(c, id);
    var a := Build(c, id, dest, name, random, appData);
    var b := Payload(a);
    assert b[..64] == a.public;
    assert b[64..74] == name;
    assert b[74..84] == random;
    assert b[84..148] == a.signature;
    assert b[148..] == appData;
  }
}
