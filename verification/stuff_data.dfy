/** The Stuff record shared by the API and the client, and the 32-bit integer
    type of the API's `page` parameter. */
module StuffData {

  /** C#'s `int`: the type of the `page` query parameter. */
  newtype Int32 = x: int | -0x8000_0000 <= x < 0x8000_0000

  const Int32Min: int := -0x8000_0000
  const Int32Max: int := 0x7fff_ffff

  /** C#'s unchecked arithmetic: the two's-complement wrap of a mathematical
      result into 32 bits. */
  function Wrap32(x: int): (r: Int32)
    ensures (r as int - x) % 0x1_0000_0000 == 0
    ensures Int32Min <= x <= Int32Max ==> r as int == x
  {
    (((x - Int32Min) % 0x1_0000_0000) + Int32Min) as Int32
  }

  /** One inventory item: the table row on the server, the JSON object on the client. */
  datatype Stuff = Stuff(id: int, name: string, description: string)

  /** Column bounds of the Stuffs table. */
  const NameMaxLength: nat := 200
  const DescriptionMaxLength: nat := 1000

  /** A record the table accepts: the name is required (a string is never
      null here) and at most 200 characters, the description at most 1000. */
  predicate ValidStuff(s: Stuff)
  {
    |s.name| <= NameMaxLength && |s.description| <= DescriptionMaxLength
  }

  /** Every record of a store is a valid row. */
  predicate ValidStore(store: seq<Stuff>)
  {
    forall i :: 0 <= i < |store| ==> ValidStuff(store[i])
  }

  /** `Id` is the table's primary key: no two rows share one. */
  predicate UniqueIds(store: seq<Stuff>)
  {
    forall i, j :: 0 <= i < j < |store| ==> store[i].id != store[j].id
  }
}
