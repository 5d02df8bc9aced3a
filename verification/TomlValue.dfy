/**
 * The values of a task definition: those the printer can emit, and others (fractional numbers,
 * dates and times), which it refuses.
 */
module TomlValue {

  datatype Value =
    | Text(text: string)
    | Flag(flag: bool)
    | Number(number: int)
    | List(items: seq<Value>)
    | Table(entries: seq<Entry>)
    | Other(literal: string)

  datatype Entry = Entry(key: string, value: Value)
}
