/** The layout of a frame or of a client's buffer (src/iris/slots.h). */
module Layouts {
  datatype Fourcc = NV12 | P010

  datatype Layout = Layout(
    fourcc: Fourcc, width: nat, height: nat, stride: nat, storageHeight: nat, dataOffset: nat, size: nat)
  {
    function ChromaOffset(): nat {
      dataOffset + stride * storageHeight
    }

    function Bytes(): nat {
      if fourcc == P010 then 2 else 1
    }
  }
}
