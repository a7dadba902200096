/**
 * The five kinds of DACG checker records (the `DacgInfoContainer`
 * implementations) and the JSON field schema of each category.
 */
module DacgInfo {

  datatype Category = Npm | Wp | Iis | Technote | Zeroboard

  /** The member name of the category object under `dacg`. */
  function CategoryKey(cat: Category): string {
    match cat
    case Npm => "npm"
    case Wp => "wp"
    case Iis => "iis"
    case Technote => "technote"
    case Zeroboard => "zeroboard"
  }

  /** The required string fields of a category, in the order the loader reads them. */
  function RequiredFields(cat: Category): seq<string> {
    match cat
    case Npm => ["library", "versionInterval", "vulnerability", "id"]
    case Wp => ["target", "name", "vulnerability", "versionInterval", "id"]
    case Iis => ["target", "name", "vulnerability", "versionInterval", "id"]
    case Technote => ["name", "vulnerability", "versionInterval", "id"]
    case Zeroboard => ["name", "vulnerability", "versionInterval", "id"]
  }

  /** The constructor call of a category, given its field values in the order of `RequiredFields(cat)`. */
  function New(cat: Category, values: seq<string>): (r: DacgInfoContainer)
    requires |values| == |RequiredFields(cat)|
    ensures r.Kind() == cat && r.Fields() == values
  {
    match cat
    case Npm => NpmDacgInfo(values[0], values[1], values[2], values[3])
    case Wp => WpDacgInfo(values[0], values[1], values[2], values[3], values[4])
    case Iis => IisDacgInfo(values[0], values[1], values[2], values[3], values[4])
    case Technote => TechnoteDacgInfo(values[0], values[1], values[2], values[3])
    case Zeroboard => ZeroboardDacgInfo(values[0], values[1], values[2], values[3])
  }

  /** One checker record; every kind carries `id`, `vulnerability` and `versionInterval`. */
  datatype DacgInfoContainer =
    | NpmDacgInfo(library: string, versionInterval: string, vulnerability: string, id: string)
    | WpDacgInfo(target: string, name: string, vulnerability: string, versionInterval: string, id: string)
    | IisDacgInfo(target: string, name: string, vulnerability: string, versionInterval: string, id: string)
    | TechnoteDacgInfo(name: string, vulnerability: string, versionInterval: string, id: string)
    | ZeroboardDacgInfo(name: string, vulnerability: string, versionInterval: string, id: string)
  {
    function Kind(): Category {
      match this
      case NpmDacgInfo(_, _, _, _) => Npm
      case WpDacgInfo(_, _, _, _, _) => Wp
      case IisDacgInfo(_, _, _, _, _) => Iis
      case TechnoteDacgInfo(_, _, _, _) => Technote
      case ZeroboardDacgInfo(_, _, _, _) => Zeroboard
    }

    /** The field values, in the order of `RequiredFields(Kind())`. */
    function Fields(): seq<string> {
      match this
      case NpmDacgInfo(library, versionInterval, vulnerability, id) =>
        [library, versionInterval, vulnerability, id]
      case WpDacgInfo(target, name, vulnerability, versionInterval, id) =>
        [target, name, vulnerability, versionInterval, id]
      case IisDacgInfo(target, name, vulnerability, versionInterval, id) =>
        [target, name, vulnerability, versionInterval, id]
      case TechnoteDacgInfo(name, vulnerability, versionInterval, id) =>
        [name, vulnerability, versionInterval, id]
      case ZeroboardDacgInfo(name, vulnerability, versionInterval, id) =>
        [name, vulnerability, versionInterval, id]
    }

    /** Every required field is non-empty. */
    predicate Complete() {
      "" !in Fields()
    }
  }
}
