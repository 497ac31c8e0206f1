/** Port bitmaps, MSB first: port 1 is bit 0x80 of byte 0 (the PortList textual
    convention, section 5 of RFC 2674). The SNMP and NSDP codecs share the layout
    and the two loops modelled here. */
module PortBitmap {
  import opened Prelude
  import opened Bits

  // ------------------------------------------------------------------
  // Decoding
  // ------------------------------------------------------------------

  /** b & (0x80 >> k) != 0. */
  predicate Bit(b: Byte, k: nat)
    requires k < 8
  {
    BitAt(b, 7 - k)
  }

  /** The port's bit is set. */
  predicate Has(bitmap: Bytes, port: int) {
    1 <= port <= 8 * |bitmap| && Bit(bitmap[(port - 1) / 8], (port - 1) % 8)
  }

  /** The ports up to n whose bits are set. */
  function PortsUpto(bitmap: Bytes, n: nat): (ports: seq<int>)
    ensures forall i :: 0 <= i < |ports| ==> 1 <= ports[i] <= n
  {
    if n == 0 then [] else PortsUpto(bitmap, n - 1) + if Has(bitmap, n) then [n] else []
  }

  function Ports(bitmap: Bytes): seq<int> {
    PortsUpto(bitmap, 8 * |bitmap|)
  }

  lemma {:induction false} Position(byteIdx: nat, bit: nat)
    requires bit < 8
    ensures (8 * byteIdx + bit) / 8 == byteIdx && (8 * byteIdx + bit) % 8 == bit
  {
  }

  /** bitmapToPorts and DecodePortBitmap. */
  method DecodeBitmap(bitmap: Bytes) returns (ports: seq<int>)
    ensures ports == Ports(bitmap)
  {
    ports := [];
    for byteIdx := 0 to |bitmap|
      invariant ports == PortsUpto(bitmap, 8 * byteIdx)
    {
      ports := DecodeByte(bitmap, byteIdx, ports);
    }
  }

  /** The inner loop: the bits of one byte, from the high end. */
  method DecodeByte(bitmap: Bytes, byteIdx: nat, before: seq<int>) returns (ports: seq<int>)
    requires byteIdx < |bitmap| && before == PortsUpto(bitmap, 8 * byteIdx)
    ensures ports == PortsUpto(bitmap, 8 * byteIdx + 8)
  {
    ports := before;
    for bit := 0 to 8
      invariant ports == PortsUpto(bitmap, 8 * byteIdx + bit)
    {
      Position(byteIdx, bit);
      ports := if Bit(bitmap[byteIdx], bit) then ports + [byteIdx * 8 + bit + 1] else ports + [];
    }
  }

  lemma {:induction false} PortsUptoMeaning(bitmap: Bytes, n: nat)
    ensures Ascending(PortsUpto(bitmap, n))
    ensures forall p :: p in PortsUpto(bitmap, n) <==> p <= n && Has(bitmap, p)
  {
    if n > 0 {
      PortsUptoMeaning(bitmap, n - 1);
    }
  }

  /** Decoding yields exactly the ports whose bits are set, each once, ascending. */
  lemma {:induction false} PortsMeaning(bitmap: Bytes)
    ensures Ascending(Ports(bitmap))
    ensures forall p :: p in Ports(bitmap) <==> Has(bitmap, p)
  {
    PortsUptoMeaning(bitmap, 8 * |bitmap|);
  }

  /** Equally long bitmaps with the same ports are the same. */
  lemma {:induction false} PortsDetermine(a: Bytes, b: Bytes)
    requires |a| == |b|
    requires forall p :: Has(a, p) <==> Has(b, p)
    ensures a == b
  {
    Pow2Eight();
    forall i | 0 <= i < |a| ensures a[i] == b[i] {
      forall k | 0 <= k < 8 ensures BitAt(a[i], k) <==> BitAt(b[i], k) {
        var port := 8 * i + (7 - k) + 1;
        assert (port - 1) / 8 == i && (port - 1) % 8 == 7 - k;
        assert Has(a, port) <==> Has(b, port);
      }
      BitsDetermine(a[i], b[i], 8);
    }
  }

  // ------------------------------------------------------------------
  // Encoding
  // ------------------------------------------------------------------

  /** Go's / and %, which truncate toward zero. */
  function Quo(a: int, b: int): int
    requires b > 0
  {
    if a >= 0 then a / b else -((-a) / b)
  }

  function Rem(a: int, b: int): int
    requires b > 0
  {
    a - b * Quo(a, b)
  }

  /** The byte a port's bit is in: 0 for the port numbers -6 to 0 as well. */
  function ByteIndex(port: int): (i: int)
    ensures port >= 1 ==> i == (port - 1) / 8
    ensures -6 <= port <= 0 ==> i == 0
    ensures port < -6 ==> i < 0
  {
    Quo(port - 1, 8)
  }

  /** A byte with a port's bit set: the shift count is unsigned, so for a port
      number below 1 the mask is zero. */
  function OrPort(b: Byte, port: int): (r: Byte) {
    var bit := Rem(port - 1, 8);
    if bit < 0 then b
    else
      assert OrBit(b, 7 - bit) < 0x100 by {
        Pow2Eight();
        OrBitBound(b, 7 - bit, 8);
      }
      OrBit(b, 7 - bit)
  }

  /** The buffer after one port: grown to hold its byte, the bit set. */
  function AddPort(data: Bytes, port: int): (r: Bytes)
    requires port >= -6
    ensures |r| == Max(|data|, ByteIndex(port) + 1)
  {
    var i := ByteIndex(port);
    var grown := data + Zeros(Max(|data|, i + 1) - |data|);
    grown[i := OrPort(grown[i], port)]
  }

  function Max(a: int, b: int): int {
    if a >= b then a else b
  }

  /** Port numbers whose byte index is not negative. */
  predicate Codable(ports: seq<int>) {
    forall i :: 0 <= i < |ports| ==> ports[i] >= -6
  }

  function Bitmap(ports: seq<int>, width: nat): Bytes
    requires Codable(ports)
  {
    if ports == [] then Zeros(width)
    else AddPort(Bitmap(ports[..|ports| - 1], width), ports[|ports| - 1])
  }

  /** portsToBitmap and EncodePortBitmap. The source's index is out of range, and it
      panics, for a port number below -6. */
  method EncodeBitmap(ports: seq<int>, width: nat) returns (data: Bytes)
    requires Codable(ports)
    ensures data == Bitmap(ports, width)
  {
    data := Zeros(width);
    for n := 0 to |ports|
      invariant data == Bitmap(ports[..n], width)
    {
      var p := ports[n];
      var byteIdx := Quo(p - 1, 8);
      assert byteIdx == ByteIndex(p) >= 0;
      ghost var before := data;
      while byteIdx >= |data|
        invariant |before| <= |data| <= Max(|before|, byteIdx + 1)
        invariant data == before + Zeros(|data| - |before|)
        decreases byteIdx - |data|
      {
        data := data + [0];
      }
      data := data[byteIdx := OrPort(data[byteIdx], p)];
      assert ports[..n + 1][..n] == ports[..n];
    }
    assert ports[..|ports|] == ports;
  }

  /** Setting a port's bit changes that port only. */
  lemma {:induction false} AddPortFrame(data: Bytes, port: int, q: int)
    requires port >= -6
    ensures Has(AddPort(data, port), q) <==> (q == port && port >= 1) || Has(data, q)
  {
    var i := ByteIndex(port);
    var grown := data + Zeros(Max(|data|, i + 1) - |data|);
    var r := AddPort(data, port);
    if 1 <= q <= 8 * |r| {
      var j, k := (q - 1) / 8, (q - 1) % 8;
      if j >= |data| {
        ZeroBits(7 - k);
      }
      assert Has(data, q) <==> Bit(grown[j], k);
      if j == i && port >= 1 {
        OrBitFrame(grown[i], 7 - (port - 1) % 8, 7 - k);
      }
    }
  }

  /** The bitmap of some ports has exactly their bits set; numbers below 1 are
      dropped without a word. */
  lemma {:induction false} BitmapMeaning(ports: seq<int>, width: nat, q: int)
    requires Codable(ports)
    ensures Has(Bitmap(ports, width), q) <==> q >= 1 && q in ports
  {
    if ports == [] {
      if 1 <= q <= 8 * width {
        ZeroBits(7 - (q - 1) % 8);
      }
    } else {
      var n := |ports| - 1;
      BitmapMeaning(ports[..n], width, q);
      AddPortFrame(Bitmap(ports[..n], width), ports[n], q);
      assert ports == ports[..n] + [ports[n]];
    }
  }

  /** Its length: the width asked for, or as much more as the greatest port needs. */
  lemma {:induction false} BitmapLength(ports: seq<int>, width: nat)
    requires Codable(ports)
    ensures |Bitmap(ports, width)| >= width
    ensures forall p :: p in ports ==> |Bitmap(ports, width)| > ByteIndex(p)
    ensures |Bitmap(ports, width)| == width || exists p :: p in ports && |Bitmap(ports, width)| == ByteIndex(p) + 1
  {
    if ports != [] {
      var n := |ports| - 1;
      BitmapLength(ports[..n], width);
      assert ports == ports[..n] + [ports[n]];
      assert ports[n] in ports;
    }
  }

  // ------------------------------------------------------------------
  // Round trips
  // ------------------------------------------------------------------

  /** Encoding what was decoded, at its own width, restores the bytes. */
  lemma {:induction false} EncodeDecoded(bitmap: Bytes)
    ensures Bitmap(Ports(bitmap), |bitmap|) == bitmap
  {
    PortsMeaning(bitmap);
    var again := Bitmap(Ports(bitmap), |bitmap|);
    BitmapLength(Ports(bitmap), |bitmap|);
    forall p ensures Has(again, p) <==> Has(bitmap, p) {
      BitmapMeaning(Ports(bitmap), |bitmap|, p);
    }
    PortsDetermine(again, bitmap);
  }

  /** Decoding what was encoded restores the ports if and only if they are ascending
      and start at 1 or more. */
  lemma {:induction false} DecodeEncoded(ports: seq<int>, width: nat)
    requires Codable(ports)
    ensures Ports(Bitmap(ports, width)) == ports <==> Ascending(ports) && forall i :: 0 <= i < |ports| ==> ports[i] >= 1
  {
    var bitmap := Bitmap(ports, width);
    PortsMeaning(bitmap);
    if Ascending(ports) && forall i :: 0 <= i < |ports| ==> ports[i] >= 1 {
      forall p ensures p in Ports(bitmap) <==> p in ports {
        BitmapMeaning(ports, width, p);
      }
      AscendingUnique(Ports(bitmap), ports);
    }
    if Ports(bitmap) == ports {
      forall i | 0 <= i < |ports| ensures ports[i] >= 1 {
        assert ports[i] in Ports(bitmap);
      }
    }
  }

  /** A bitmap has the width asked for exactly when every port fits it. */
  lemma {:induction false} BitmapFits(ports: seq<int>, width: nat)
    requires forall i :: 0 <= i < |ports| ==> ports[i] >= 1
    ensures |Bitmap(ports, width)| == width <==> forall i :: 0 <= i < |ports| ==> ports[i] <= 8 * width
  {
    BitmapLength(ports, width);
    forall i | 0 <= i < |ports|
      ensures |Bitmap(ports, width)| > ByteIndex(ports[i])
      ensures ports[i] <= 8 * width <==> ByteIndex(ports[i]) < width
    {
      assert ports[i] in ports;
    }
  }
}
