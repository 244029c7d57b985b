/** Labels of the DX list. */
module DxLabel {
  /** A label: carrier frequency in kHz, schedule, flag bits, texts, passband, offset from the carrier in Hz and
      signal width; `idx` is its position in the list. */
  datatype Label = Label(freq: real, begin: nat, end: nat, flags: bv32, ident: string, notes: string, params: string,
                         low: int, high: int, offset: int, sigBw: int, idx: int)

  const TYPE: bv32 := 0x1f0
  const MODE: bv32 := 0xf
  const DOW: bv32 := 0xfe00
  const MON: bv32 := 0x8000
  const FILTERED: bv32 := 0x10000
  const MODE_16: bv32 := 0x40000
}
