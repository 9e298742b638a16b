// What is copied to the host: the two halves of a quantized block, and the bytes each occupies.
module HostCopies {
  import opened Quantizer

  datatype Half = KeyHalf(keyLanes: seq<Coded>, length: nat) | ValueHalf(valueLanes: seq<Coded>)

  datatype Payload = Payload(content: Half, nbytes: nat)

  function SizeOf(h: Half): nat {
    if h.KeyHalf? then LaneBytes(h.keyLanes) else LaneBytes(h.valueLanes)
  }

  // Packed codes, and two bytes each for every scale and zero.
  function LaneBytes(lanes: seq<Coded>): nat {
    if lanes == [] then 0 else |lanes[0].packed| + 2 * |lanes[0].scale| + 2 * |lanes[0].zero| + LaneBytes(lanes[1..])
  }

  function CopyOf(h: Half): Payload {
    Payload(h, SizeOf(h))
  }
}
