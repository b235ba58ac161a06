/** A loaded module: a named image at a base address, with an export table
    mapping names to absolute addresses. */
module Modules {
  import opened Handles

  /** The offset of the placeholder entry point reported for every module. */
  const EntryPointOffset: int := 0x1000

  class SimulatedModule {
    const id: int
    const name: string
    const baseAddress: int
    const size: int
    var exports: map<string, int>

    /** A new module stores its identity and starts with no exports. */
    constructor(id: int, name: string, baseAddress: int, size: int)
      ensures this.id == id && this.name == name
      ensures this.baseAddress == baseAddress && this.size == size
      ensures exports == map[]
    {
      this.id := id;
      this.name := name;
      this.baseAddress := baseAddress;
      this.size := size;
      exports := map[];
    }

    /** `addExport`: `name` now resolves to the base plus `offset`, replacing any
        earlier entry of that name; other names are untouched. */
    method AddExport(name: string, offset: int)
      modifies this
      ensures exports == old(exports)[name := baseAddress + offset]
      ensures GetProcAddress(name) == Some(baseAddress + offset)
      ensures forall other :: other != name ==> GetProcAddress(other) == old(GetProcAddress(other))
    {
      exports := exports[name := baseAddress + offset];
    }

    /** `getProcAddress`: the address of an export, or nothing for a name never added. */
    function GetProcAddress(name: string): (r: Option<int>)
      reads this
      ensures r.Some? <==> name in exports
      ensures r.Some? ==> r.value == exports[name]
    {
      if name in exports then Some(exports[name]) else None
    }
  }

  /** Exports resolve relative to the base: two exports added in turn both
      resolve, the later one replacing an earlier one of the same name. */
  method ExportScenario(base: int) returns (first: Option<int>, second: Option<int>, missing: Option<int>)
    ensures first == Some(base + 0x20) && second == Some(base + 0x40)
    ensures missing == None
  {
    var m := new SimulatedModule(1, "kernel32.dll", base, 0x10000);
    m.AddExport("OpenProcess", 0x10);
    m.AddExport("OpenProcess", 0x20);
    m.AddExport("CloseHandle", 0x40);
    first := m.GetProcAddress("OpenProcess");
    second := m.GetProcAddress("CloseHandle");
    missing := m.GetProcAddress("ReadFile");
  }
}
