/** The 4 KiB byte-addressable store of the machine, with the hexadecimal font preloaded.

    The store is a plain 4096-byte sequence; reads and writes are bounds-checked and never
    touch anything outside the addressed bytes. */
module Memory {
  import opened Bits
  import opened Wrappers

  const RAM_SIZE: nat := 4096

  /** Where the font glyphs live. */
  const FONT_START_ADDRESS: nat := 0x50

  /** The sixteen hexadecimal glyphs 0-F, five rows of one byte each. */
  const FONT_SET: seq<u8> := [
    0xF0, 0x90, 0x90, 0x90, 0xF0, // 0
    0x20, 0x60, 0x20, 0x20, 0x70, // 1
    0xF0, 0x10, 0xF0, 0x80, 0xF0, // 2
    0xF0, 0x10, 0xF0, 0x10, 0xF0, // 3
    0x90, 0x90, 0xF0, 0x10, 0x10, // 4
    0xF0, 0x80, 0xF0, 0x10, 0xF0, // 5
    0xF0, 0x80, 0xF0, 0x90, 0xF0, // 6
    0xF0, 0x10, 0x20, 0x40, 0x40, // 7
    0xF0, 0x90, 0xF0, 0x90, 0xF0, // 8
    0xF0, 0x90, 0xF0, 0x10, 0xF0, // 9
    0xF0, 0x90, 0xF0, 0x90, 0x90, // A
    0xE0, 0x90, 0xE0, 0x90, 0xE0, // B
    0xF0, 0x80, 0x80, 0x80, 0xF0, // C
    0xE0, 0x90, 0x90, 0x90, 0xE0, // D
    0xF0, 0x80, 0xF0, 0x80, 0xF0, // E
    0xF0, 0x80, 0xF0, 0x80, 0x80  // F
  ]

  /** The RAM: exactly RAM_SIZE bytes. */
  type Ram = s: seq<u8> | |s| == RAM_SIZE witness seq(RAM_SIZE, _ => 0)

  /** The failures of the store. `Unrecoverable` is part of the error type but no operation
      produces it. */
  datatype MemoryError = Unrecoverable | OutOfMemory

  /** The byte a freshly built store holds at `a`: a font byte inside the font region,
      zero everywhere else. */
  function InitialByte(a: nat): u8
  {
    if FONT_START_ADDRESS <= a < FONT_START_ADDRESS + |FONT_SET| then FONT_SET[a - FONT_START_ADDRESS] else 0
  }

  /** `ram[..offset] ++ buf ++ ram[offset + |buf|..]`: the copy of a slice into the store. */
  function Overwrite(ram: Ram, buf: seq<u8>, offset: nat): (r: Ram)
    requires offset + |buf| <= RAM_SIZE
    ensures r[offset..offset + |buf|] == buf
    ensures forall a :: 0 <= a < RAM_SIZE && !(offset <= a < offset + |buf|) ==> r[a] == ram[a]
  {
    ram[..offset] + buf + ram[offset + |buf|..]
  }

  /** A zeroed store with the font loaded at FONT_START_ADDRESS. Loading cannot fail, since
      the font region lies inside the store. */
  function TryNew(): (r: Result<Ram, MemoryError>)
    ensures r.Ok?
    ensures forall a :: 0 <= a < RAM_SIZE ==> r.value[a] == InitialByte(a)
  {
    LoadFont(seq(RAM_SIZE, _ => 0))
  }

  function LoadFont(ram: Ram): (r: Result<Ram, MemoryError>)
    ensures r.Ok?
    ensures r.value[FONT_START_ADDRESS..FONT_START_ADDRESS + |FONT_SET|] == FONT_SET
    ensures forall a :: 0 <= a < RAM_SIZE && !(FONT_START_ADDRESS <= a < FONT_START_ADDRESS + |FONT_SET|) ==> r.value[a] == ram[a]
  {
    WriteAt(ram, FONT_SET, FONT_START_ADDRESS)
  }

  function ReadByte(ram: Ram, address: nat): (r: Option<u8>)
    ensures r.Some? <==> address < RAM_SIZE
    ensures r.Some? ==> r.value == ram[address]
  {
    if address < |ram| then Some(ram[address]) else None
  }

  /** The big-endian word at `address`: the high byte is `ram[address]`. */
  function ReadWord(ram: Ram, address: nat): (r: Option<u16>)
    ensures r.Some? <==> address + 2 <= RAM_SIZE
    ensures r.Some? ==> r.value / 0x100 == ram[address] && r.value % 0x100 == ram[address + 1]
  {
    if address + 2 <= |ram| then
      var hi: int := ram[address];
      Some(hi * 0x100 + ram[address + 1])
    else
      None
  }

  function WriteByte(ram: Ram, address: nat, value: u8): (r: Result<Ram, MemoryError>)
    ensures r.Err? <==> address >= RAM_SIZE
    ensures r.Err? ==> r.error == OutOfMemory
    ensures r.Ok? ==> r.value[address] == value
    ensures r.Ok? ==> forall a :: 0 <= a < RAM_SIZE && a != address ==> r.value[a] == ram[a]
  {
    if address >= RAM_SIZE then Err(OutOfMemory) else Ok(ram[address := value])
  }

  /** Copies `buf` to `offset..offset + |buf|`, or fails without writing anything. */
  function WriteAt(ram: Ram, buf: seq<u8>, offset: nat): (r: Result<Ram, MemoryError>)
    ensures r.Err? <==> offset + |buf| > RAM_SIZE
    ensures r.Err? ==> r.error == OutOfMemory
    ensures r.Ok? ==> r.value[offset..offset + |buf|] == buf
    ensures r.Ok? ==> forall a :: 0 <= a < RAM_SIZE && !(offset <= a < offset + |buf|) ==> r.value[a] == ram[a]
  {
    if offset + |buf| > RAM_SIZE then Err(OutOfMemory) else Ok(Overwrite(ram, buf, offset))
  }

  /** `Memory::get` with a range: the bytes `lo..hi`, if that is a slice of the store. */
  function Slice(ram: Ram, lo: nat, hi: nat): (r: Option<seq<u8>>)
    ensures r.Some? <==> lo <= hi <= RAM_SIZE
    ensures r.Some? ==> |r.value| == hi - lo && forall k :: 0 <= k < hi - lo ==> r.value[k] == ram[lo + k]
  {
    if lo <= hi <= |ram| then Some(ram[lo..hi]) else None
  }

  function Size(ram: Ram): (r: nat)
    ensures r == |ram|
  {
    RAM_SIZE
  }

  function IsValidAddress(ram: Ram, address: nat): bool
  {
    address < RAM_SIZE
  }

  /** An address is valid exactly when a byte can be read from it. */
  lemma ValidIffReadable(ram: Ram, address: nat)
    ensures IsValidAddress(ram, address) <==> ReadByte(ram, address).Some?
    ensures IsValidAddress(ram, address) <==> address < Size(ram)
  {
  }

  /** Reading back a written byte yields it; every other address reads as before. */
  lemma WriteThenRead(ram: Ram, address: nat, value: u8, other: nat)
    requires address < RAM_SIZE
    ensures ReadByte(WriteByte(ram, address, value).value, address) == Some(value)
    ensures other != address ==> ReadByte(WriteByte(ram, address, value).value, other) == ReadByte(ram, other)
  {
  }

  /** A word is the two bytes at its address, high byte first. */
  lemma ReadWordBytes(ram: Ram, address: nat)
    requires address + 2 <= RAM_SIZE
    ensures ReadWord(ram, address) == Some(ReadByte(ram, address).value as int * 0x100 + ReadByte(ram, address + 1).value)
  {
  }

  /** Writing two bytes high byte first and reading the word back yields the word. */
  lemma WordRoundTrip(ram: Ram, address: nat, w: u16)
    requires address + 2 <= RAM_SIZE
    ensures var r1 := WriteByte(ram, address, w / 0x100).value;
            var r2 := WriteByte(r1, address + 1, w % 0x100).value;
            ReadWord(r2, address) == Some(w)
  {
  }

  /** A range written with `WriteAt` reads back byte by byte. */
  lemma WriteAtThenRead(ram: Ram, buf: seq<u8>, offset: nat, k: nat)
    requires offset + |buf| <= RAM_SIZE && k < |buf|
    ensures ReadByte(WriteAt(ram, buf, offset).value, offset + k) == Some(buf[k])
  {
    assert WriteAt(ram, buf, offset).value[offset..offset + |buf|][k] == buf[k];
  }
}
