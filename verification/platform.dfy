/** Machine-level vocabulary shared by the harness model: fixed-width
    unsigned integers, HRESULT status codes, GUIDs, the pointer width of
    the target and the wrap-around of `size_t`. */
module Platform {

  type u8 = x: int | 0 <= x < 0x100
  type u16 = x: int | 0 <= x < 0x1_0000
  type u32 = x: int | 0 <= x < 0x1_0000_0000

  /** A pointer that may be null. */
  datatype Option<+T> = None | Some(value: T)

  /** HRESULT is a signed 32-bit integer. */
  type HResult = x: int | -0x8000_0000 <= x < 0x8000_0000

  /** Reads an unsigned 32-bit bit pattern (how HRESULT constants are
      written in the Windows headers) as the signed HRESULT it denotes. */
  function AsHResult(bits: u32): (hr: HResult)
    ensures hr % 0x1_0000_0000 == bits
    ensures hr < 0 <==> bits >= 0x8000_0000
  {
    if bits < 0x8000_0000 then bits else bits - 0x1_0000_0000
  }

  const S_OK: HResult := 0
  const E_NOINTERFACE: HResult := AsHResult(0x8000_4002)
  const E_POINTER: HResult := AsHResult(0x8000_4003)

  /** The FAILED macro: the severity (sign) bit is set. */
  predicate Failed(hr: HResult)
  {
    hr < 0
  }

  type Bytes8 = s: seq<u8> | |s| == 8 witness [0, 0, 0, 0, 0, 0, 0, 0]

  /** The Windows GUID structure: a 32-bit, two 16-bit and eight 8-bit fields. */
  datatype Guid = Guid(data1: u32, data2: u16, data3: u16, data4: Bytes8)

  /** IID of IUnknown, {00000000-0000-0000-C000-000000000046}. */
  const IID_IUnknown: Guid := Guid(0, 0, 0, [0xC0, 0, 0, 0, 0, 0, 0, 0x46])

  /** `sizeof(void*)` on a 32-bit or a 64-bit target. */
  type PointerWidth = w: int | w == 4 || w == 8 witness 8

  /** Number of distinct `size_t` values on the target. */
  function SizeModulus(width: PointerWidth): nat
  {
    if width == 4 then 0x1_0000_0000 else 0x1_0000_0000_0000_0000
  }

  /** Conversion of a (possibly negative) integer to `size_t`: reduction
      modulo the number of `size_t` values. */
  function ToSize(x: int, width: PointerWidth): (s: nat)
    ensures s < SizeModulus(width)
    ensures (x - s) % SizeModulus(width) == 0
    ensures 0 <= x < SizeModulus(width) ==> s == x
  {
    x % SizeModulus(width)
  }

  /** C's integer division, which rounds toward zero (Dafny's `/` is
      Euclidean). */
  function TruncDiv(a: int, b: int): (q: int)
    requires b > 0
    ensures a >= 0 ==> 0 <= a - q * b < b
    ensures a < 0 ==> -b < a - q * b <= 0
  {
    if a >= 0 then a / b else -((-a) / b)
  }
}
