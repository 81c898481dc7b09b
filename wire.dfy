/** The serialized form of the data model: the nested arrays, objects and
    scalars a serializer produces and a deserializer reads. A PHP array is
    either a list or a string-keyed map; the empty array is both. */
module Wire {
  import opened Wrappers

  datatype Serial =
    | SNull
    | SInt(i: int)
    | SString(s: string)
    | SList(items: seq<Serial>)
    | SMap(entries: map<string, Serial>)
    | SObject(fields: map<string, Serial>)

  /** The empty PHP array, written in its map spelling. */
  function EmptyArray(): Serial { SMap(map[]) }

  /** Reads an array as a list; an empty map is the empty list. */
  function AsList(s: Serial): (r: Option<seq<Serial>>)
    ensures s.SList? ==> r == Some(s.items)
    ensures s == EmptyArray() ==> r == Some([])
  {
    match s
    case SList(items) => Some(items)
    case SMap(entries) => if entries == map[] then Some([]) else None
    case _ => None
  }

  /** Reads an array as a string-keyed map; an empty list is the empty map. */
  function AsMap(s: Serial): (r: Option<map<string, Serial>>)
    ensures s.SMap? ==> r == Some(s.entries)
    ensures s == SList([]) ==> r == Some(map[])
  {
    match s
    case SMap(entries) => Some(entries)
    case SList(items) => if items == [] then Some(map[]) else None
    case _ => None
  }

  function AsString(s: Serial): Option<string> {
    if s.SString? then Some(s.s) else None
  }
}
