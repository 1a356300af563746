/**
 * _update_cargo_toml: before every build the compile check makes sure the
 * scaffold crate's manifest builds a dynamic library, by giving its `[lib]`
 * table a `crate-type` of `["cdylib"]` when it has none.
 */
module CargoManifest {
  import opened Wrappers

  /** The TOML values a Cargo manifest holds. */
  datatype Toml =
    | Str(s: string)
    | Int(i: int)
    | Bool(b: bool)
    | Arr(items: seq<Toml>)
    | Table(entries: map<string, Toml>)

  const LIB: string := "lib"
  const CRATE_TYPE: string := "crate-type"
  const CDYLIB: Toml := Arr([Str("cdylib")])

  /**
   * The manifest after the update, or None when `lib` is present but is not a
   * table (the script then calls `.keys()` on a value that has none and raises).
   */
  function WithCrateType(data: map<string, Toml>): (r: Option<map<string, Toml>>)
    ensures r.None? <==> LIB in data && !data[LIB].Table?
    ensures r.Some? ==> r.value.Keys == data.Keys + {LIB}
    ensures r.Some? ==> forall k :: k in data && k != LIB ==> r.value[k] == data[k]
    ensures r.Some? ==> r.value[LIB].Table? && CRATE_TYPE in r.value[LIB].entries
    ensures r.Some? && LIB !in data ==> r.value[LIB] == Table(map[CRATE_TYPE := CDYLIB])
    ensures r.Some? && LIB in data ==>
      && r.value[LIB].entries.Keys == data[LIB].entries.Keys + {CRATE_TYPE}
      && (forall k :: k in data[LIB].entries ==> r.value[LIB].entries[k] == data[LIB].entries[k])
    ensures r.Some? && LIB in data && CRATE_TYPE !in data[LIB].entries ==>
      r.value[LIB].entries[CRATE_TYPE] == CDYLIB
    ensures LIB in data && data[LIB].Table? && CRATE_TYPE in data[LIB].entries ==> r == Some(data)
  {
    if LIB in data then
      match data[LIB]
      case Table(lib) =>
        if CRATE_TYPE in lib then Some(data)
        else Some(data[LIB := Table(lib[CRATE_TYPE := CDYLIB])])
      case _ => None
    else
      Some(data[LIB := Table(map[CRATE_TYPE := CDYLIB])])
  }

  /** Updating an updated manifest changes nothing. */
  lemma UpdateIdempotent(data: map<string, Toml>)
    requires WithCrateType(data).Some?
    ensures WithCrateType(WithCrateType(data).value) == WithCrateType(data)
  {
  }

  /** The parsed manifest the script mutates in place before dumping it back. */
  class Manifest {
    var data: map<string, Toml>

    constructor (data: map<string, Toml>)
      ensures this.data == data
    {
      this.data := data;
    }

    /** _update_cargo_toml on the loaded table; `ok` is false where the script raises. */
    method UpdateCrateType() returns (ok: bool)
      modifies this
      ensures ok <==> WithCrateType(old(data)).Some?
      ensures ok ==> data == WithCrateType(old(data)).value
      ensures !ok ==> data == old(data)
    {
      if LIB in data {
        match data[LIB]
        case Table(lib) =>
          if CRATE_TYPE !in lib {
            data := data[LIB := Table(lib[CRATE_TYPE := CDYLIB])];
          }
          ok := true;
        case _ =>
          ok := false;
      } else {
        data := data[LIB := Table(map[CRATE_TYPE := CDYLIB])];
        ok := true;
      }
    }
  }
}
