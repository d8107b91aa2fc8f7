/** PDUData (bacpypes3/pdu.py): octets that encoders append to and decoders take from the front. */
module Buffers {
  import opened Apdus

  /** An octet string of two, most significant first. */
  function Short(n: nat): (b: Bytes)
    ensures |b| == 2
  {
    [(n / 256) % 256, n % 256]
  }

  function ShortAt(b: Bytes): nat
    requires 2 <= |b|
  {
    (b[0] as nat) * 256 + (b[1] as nat)
  }

  lemma ShortRoundTrip(n: nat, rest: Bytes)
    ensures ShortAt(Short(n) + rest) == n % 65536 && (Short(n) + rest)[2..] == rest
  {
    assert (Short(n) + rest)[0] == (n / 256) % 256 && (Short(n) + rest)[1] == n % 256;
  }

  class PDUData {
    var pduData: Bytes

    constructor (data: Bytes)
      ensures pduData == data
    {
      pduData := data;
    }

    /** None stands for the error that there is no more packet data. */
    method Get() returns (r: Option<byte>)
      modifies this
      ensures old(pduData) == [] ==> r == None && pduData == []
      ensures old(pduData) != [] ==> r == Some(old(pduData)[0]) && pduData == old(pduData)[1..]
    {
      if pduData == [] {
        return None;
      }
      r := Some(pduData[0]);
      pduData := pduData[1..];
    }

    method GetData(n: nat) returns (r: Option<Bytes>)
      modifies this
      ensures |old(pduData)| < n ==> r == None && pduData == old(pduData)
      ensures n <= |old(pduData)| ==> r == Some(old(pduData)[..n]) && pduData == old(pduData)[n..]
    {
      if |pduData| < n {
        return None;
      }
      r := Some(pduData[..n]);
      pduData := pduData[n..];
    }

    method GetShort() returns (r: Option<nat>)
      modifies this
      ensures |old(pduData)| < 2 ==> r == None && pduData == old(pduData)
      ensures 2 <= |old(pduData)| ==> r == Some(ShortAt(old(pduData))) && pduData == old(pduData)[2..]
    {
      var data := GetData(2);
      r := if data.None? then None else Some(ShortAt(data.value));
    }

    method Put(n: byte)
      modifies this
      ensures pduData == old(pduData) + [n]
    {
      pduData := pduData + [n];
    }

    method PutData(data: Bytes)
      modifies this
      ensures pduData == old(pduData) + data
    {
      pduData := pduData + data;
    }

    /** The number is cut to sixteen bits. */
    method PutShort(n: nat)
      modifies this
      ensures pduData == old(pduData) + Short(n)
    {
      pduData := pduData + [(n / 256) % 256, n % 256];
    }
  }
}
