/** The address book: contacts by name, with no silent overwrite. */
module AddressBooks {
  import opened Errors
  import opened Records

  class AddressBook {
    var data: map<string, Record>

    /** Every record is filed under its own name. */
    ghost predicate Valid()
      reads this
    {
      forall k :: k in data ==> data[k].name == k
    }

    constructor ()
      ensures Valid() && data == map[]
    {
      data := map[];
    }

    /** `add_record`: files `record` under its name, or raises KeyError when
        that name is taken, leaving the book (and the record already filed
        there) as it was. */
    method AddRecord(record: Record) returns (res: Result<()>)
      requires Valid()
      modifies this
      ensures Valid()
      ensures res.Ok? <==> record.name !in old(data)
      ensures res.Ok? ==> data == old(data)[record.name := record]
      ensures res.Err? ==> res.error == KeyError(record.name) && data == old(data)
    {
      if record.name in data {
        return Err(KeyError(record.name));
      }
      data := data[record.name := record];
      return Ok(());
    }

    /** `find`: the record filed under `name` itself (not a copy), or KeyError. */
    method Find(name: string) returns (res: Result<Record>)
      ensures res.Ok? <==> name in data
      ensures res.Ok? ==> res.value == data[name]
      ensures res.Err? ==> res.error == KeyError(name)
      ensures Valid() && res.Ok? ==> res.value.name == name
    {
      if name in data {
        return Ok(data[name]);
      }
      return Err(KeyError(name));
    }

    /** `delete`: removes and returns the record filed under `name`, or
        raises KeyError and changes nothing. */
    method Delete(name: string) returns (res: Result<Record>)
      requires Valid()
      modifies this
      ensures Valid()
      ensures res.Ok? <==> name in old(data)
      ensures res.Ok? ==> res.value == old(data)[name] && data == old(data) - {name}
      ensures res.Err? ==> res.error == KeyError(name) && data == old(data)
    {
      if name in data {
        var r := data[name];
        data := data - {name};
        return Ok(r);
      }
      return Err(KeyError(name));
    }
  }
}
