/** The records the prototype parser builds: one `RegFolder` per `[HKEY...]`
    block of a `.reg` export, holding the name/type/data triples (`RegFile`)
    recorded under it, in the order they were read. */
module RegData {

  /** One name/data pair of a key block. The type is always a string tag; the
      data, declared as `object`, is only ever a string. */
  datatype RegFile = RegFile(name: string, regType: string, data: string)

  /** A key block: its header line, brackets included, and its pairs. */
  datatype RegFolder = RegFolder(keyPath: string, regFiles: seq<RegFile>)

  /** The only type tag the prototype stores. */
  const RegSz: string := "REG_SZ"

  /** The placeholder a block that closes without pairs receives. */
  const DefaultEntry: RegFile := RegFile("(Default)", RegSz, "(value not set)")
}
