/** Record contents as the Action engine sees them. */
module Records {
  datatype Value =
    | Null | Bool(b: bool) | Number(n: real) | Text(s: string)
    | List(items: seq<Value>) | Object(fields: map<string, Value>)

  type Data = map<string, Value>

  datatype Record = Record(id: string, ownerOrg: string, updatedAt: string, data: Data)

  /** A Go map read: a missing key reads as nil. */
  function Get(d: Data, key: string): Value { if key in d then d[key] else Null }
}
