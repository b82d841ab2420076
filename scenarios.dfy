/** Client code: the calls of the module's demonstration block and the
    duplicate-name and missing-name cases, proved from the contracts alone
    (nothing is printed). */
module Scenarios {
  import opened Errors
  import opened Fields
  import opened Records
  import opened AddressBooks

  /** `book.find(name).edit_phone(number, newValue)`: the record `find`
      returns is the one in the book, so the edit shows up there. */
  method EditThroughBook(book: AddressBook, name: string, number: string, newValue: string)
    returns (res: Result<bool>)
    requires book.Valid() && name in book.data && book.data[name].Valid()
    modifies book.data[name].phones
    ensures book.data == old(book.data) && book.data[name].Valid()
    ensures res == Ok(true) <==> number in old(book.data[name].Values()) && ValidPhone(newValue)
    ensures res == Ok(true) ==>
      book.data[name].Values()
      == old(book.data[name].Values())[FirstIndex(old(book.data[name].Values()), number) := newValue]
  {
    var found := book.Find(name);
    var contact := found.value;
    res := contact.EditPhone(number, newValue);
  }

  /** A new contact with two phones added one after the other. */
  method ContactWithTwoPhones(name: Name, a: string, b: string) returns (r: Record)
    requires ValidPhone(a) && ValidPhone(b)
    ensures fresh(r) && fresh(r.phones)
    ensures r.Valid() && r.name == name && r.Values() == [a, b]
  {
    r := new Record(name);
    var _ := r.AddPhone(a);
    var _ := r.AddPhone(b);
  }

  /** `edit_phone(a, c)` then `find_phone(b)` on a contact holding `[a, b]`. */
  method EditFirstFindSecond(contact: Record, a: string, b: string, c: string)
    returns (edited: Result<bool>, found: Result<Phone>)
    requires contact.Valid() && contact.Values() == [a, b] && a != b && ValidPhone(c)
    modifies contact.phones
    ensures edited == Ok(true)
    ensures found.Ok? && found.value.value == b
    ensures contact.Values() == [c, b]
  {
    assert FirstIndex([a, b], a) == 0;
    edited := contact.EditPhone(a, c);
    assert contact.Values() == [c, b];
    found := contact.FindPhone(b);
  }

  /** The demonstration's calls on John's record: two different phones
      added, the first edited to `c`, the second found; `str(john)` then
      lists `c` and `b`. */
  method JohnScenario(a: string, b: string, c: string)
    returns (john: Record, edited: Result<bool>, found: Result<Phone>)
    requires ValidPhone(a) && ValidPhone(b) && ValidPhone(c) && a != b
    ensures edited == Ok(true)
    ensures found.Ok? && found.value.value == b
    ensures john.ToString() == Render("John", [c, b])
  {
    john := ContactWithTwoPhones("John", a, b);
    edited, found := EditFirstFindSecond(john, a, b, c);
  }

  /** The three numbers of the demonstration pass the phone check. */
  lemma DemoNumbersValid()
    ensures ValidPhone("1234567890") && ValidPhone("5555555555") && ValidPhone("1112223333")
  {
  }

  /** The demonstration itself: John's record with its two phones, the edit,
      the lookup, and the text `print(john)` then shows. */
  method JohnDemo() returns (edited: Result<bool>, found: Result<Phone>, text: string)
    ensures edited == Ok(true)
    ensures found.Ok? && found.value.value == "5555555555"
    ensures text == "Contact name: John, phones: 1112223333; 5555555555"
  {
    DemoNumbersValid();
    var john;
    john, edited, found := JohnScenario("1234567890", "5555555555", "1112223333");
    text := john.ToString();
    JohnText();
  }

  /** The text of John's record once it holds the edited number and the
      second one. */
  lemma JohnText()
    ensures Render("John", ["1112223333", "5555555555"])
      == "Contact name: John, phones: 1112223333; 5555555555"
  {
  }

  /** A second record under a taken name is refused, and the first record
      stays filed with its phones untouched. */
  method DuplicateName(number: string) returns (first: Record, second: Result<()>, found: Result<Record>)
    requires ValidPhone(number)
    ensures second == Err(KeyError("Jane"))
    ensures found == Ok(first)
    ensures first.Values() == [number]
  {
    var book := new AddressBook();
    first := new Record("Jane");
    var _ := first.AddPhone(number);
    var _ := book.AddRecord(first);
    var other := new Record("Jane");
    second := book.AddRecord(other);
    found := book.Find("Jane");
  }

  /** Deleting from an empty book raises KeyError and leaves it empty. */
  method DeleteMissing() returns (res: Result<Record>, size: nat)
    ensures res == Err(KeyError("Jane")) && size == 0
  {
    var book := new AddressBook();
    res := book.Delete("Jane");
    size := |book.data|;
  }
}
