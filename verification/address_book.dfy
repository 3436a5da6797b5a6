/**
 * The address book: a dict from a contact's name to its `Record`. The dict's
 * insertion order is kept as a sequence of keys beside the map, because printing
 * the book follows it.
 */
module AddressBooks {
  import opened Outcomes
  import opened Lists
  import opened Text
  import opened Records

  const RecordNotFoundMessage := "Record not found."

  class AddressBook {
    /** The keys of the dict in insertion order. */
    var order: seq<string>
    /** The dict itself; the records are shared with whoever else holds them. */
    var data: map<string, Record>

    /** Every key is listed once in `order`, and each record sits under its own name. */
    ghost predicate Valid()
      reads this
    {
      Distinct(order) &&
      (forall k :: k in data <==> k in order) &&
      (forall k :: k in data ==> data[k].name.value == k)
    }

    /** `AddressBook()`: an empty dict. */
    constructor ()
      ensures Valid() && order == [] && data == map[]
    {
      order := [];
      data := map[];
    }

    /**
     * `add_record`: `data[record.name.value] = record`. The record is stored by
     * reference; an existing entry under that name is replaced and keeps its
     * position in the order, a new name is appended; every other key keeps its record.
     */
    method AddRecord(record: Record)
      requires Valid()
      modifies this
      ensures Valid()
      ensures data == old(data)[record.name.value := record]
      ensures order == Assign(old(order), record.name.value)
    {
      data := data[record.name.value := record];
      order := Assign(order, record.name.value);
    }

    /** `find`: `data.get(name, None)`, the stored record itself, not a copy. */
    function Find(name: string): (r: Option<Record>)
      reads this
      ensures r.None? <==> name !in data
      ensures r.Some? ==> r.value == data[name]
      ensures r.Some? && Valid() ==> r.value.name.value == name
    {
      if name in data then Some(data[name]) else None
    }

    /**
     * `delete`: removes the entry under `name` and nothing else; for an absent
     * name it raises "Record not found." and the book is unchanged.
     */
    method Delete(name: string) returns (r: Result<()>)
      requires Valid()
      modifies this
      ensures Valid()
      ensures name in old(data) ==>
                r == Ok(()) && data == old(data) - {name} && order == Without(old(order), name)
      ensures name !in old(data) ==>
                r == Err(ValueError(RecordNotFoundMessage)) && data == old(data) && order == old(order)
    {
      if name in data {
        data := data - {name};
        order := Without(order, name);
        return Ok(());
      }
      return Err(ValueError(RecordNotFoundMessage));
    }

    /** The printed records under the given keys, in that order. */
    function Lines(keys: seq<string>): (r: seq<string>)
      requires forall k :: k in keys ==> k in data
      reads this, data.Values
      ensures |r| == |keys| && forall i :: 0 <= i < |keys| ==> r[i] == data[keys[i]].ToString()
    {
      if keys == [] then [] else [data[keys[0]].ToString()] + Lines(keys[1..])
    }

    /** `str(book)`: every record's printed form, one per line, in key insertion order. */
    function ToString(): (r: string)
      requires Valid()
      reads this, data.Values
      ensures order == [] ==> r == ""
    {
      Join("\n", Lines(order))
    }
  }

  /**
   * The printed book can be read back: when no record prints with a newline,
   * splitting the book's printed form at the newlines gives each record's
   * printed form, in key insertion order.
   */
  lemma BookReadsBack(book: AddressBook)
    requires book.Valid() && book.order != []
    requires forall k :: k in book.data ==> '\n' !in book.data[k].ToString()
    ensures Split(book.ToString(), '\n') == book.Lines(book.order)
  {
    SplitJoin(book.Lines(book.order), '\n');
  }
}
