# Contact book

A model of a small in-memory contact book (`task.py`) in three layers:

- **Validated fields** (module `Fields`). A `Name` is any non-empty string, stored as given. A `Phone` checks every value assigned to it, including the value it is constructed with. The check strips surrounding whitespace and then requires exactly ten characters, each in `'0'..'9'`. On success the phone stores the original string with its padding; the check is a gate, not a normaliser.
- **Records** (module `Records`). A record has a name and an ordered list of phone objects, and duplicates are allowed. `add_phone` appends a new phone. `remove_phone` drops every phone whose value is exactly the given number. `edit_phone` re-assigns the first exact match through the validating setter. `find_phone` returns the first exact match itself. `str(record)` joins the phone values with `"; "`.
- **The address book** (module `AddressBooks`). It is a map from a name to a record. `add_record` refuses a taken name instead of overwriting. `find` and `delete` fail on an absent name. `find` returns the filed record itself, so edits made through it show up in the book.

Python exceptions become a `Result` (module `Errors`) carrying the same two kinds the code raises: `ValueError` for a value that fails validation, and `KeyError` for a missing phone, a missing name or a taken name. Each `KeyError` also carries the offending key.

Objects the code mutates in place are classes:
- `Phone` has a `value` field, and `SetValue` is the property setter.
- `Record` has an immutable `name` and a `phones` sequence of `Phone` objects.
- `AddressBook` has a `data` map.

Each method is proved against specification functions:
- `ValuesOf` gives the values of a phone list.
- `FirstIndex` gives the first exact match.
- `Without` and `KeptPhones` describe the filter.
- `Join`, `Split` and `Render` describe the text.

Module `Scenarios` holds client code proved from the contracts alone:
- the demonstration's calls on John's record: two `add_phone` calls, `edit_phone`, `find_phone`, and the text `print(john)` then shows;
- an edit made on the record that the book's `find` returns;
- the duplicate-name and missing-name cases.

## Model

| member | source | states |
|---|---|---|
| Fields.SkipSpacesShape | task.py:34 | the left scan of `strip()` passes over whitespace only and stops at a non-space or the end |
| Fields.SkipSpacesBackShape | task.py:34 | the right scan of `strip()` passes over whitespace only and stops after a non-space or where the left scan stopped |
| Fields.TrimIsInfix | task.py:34 | `strip()` returns a contiguous slice of its input; everything it removes is whitespace, and what it keeps neither starts nor ends with whitespace |
| Fields.TrimPadded | task.py:34 | conversely, whitespace around a string that neither starts nor ends with whitespace is exactly what `strip()` removes |
| Fields.Trim | task.py:34 | `number.strip()`: the slice between the two whitespace scans; TrimIsInfix and TrimPadded state what it keeps and what it removes |
| Fields.ValidateName | task.py:15-17 | a name is accepted iff it is non-empty; if accepted it is returned unchanged, otherwise the error is ValueError |
| Fields.ValidateNumber | task.py:33-35 | a number is accepted iff its stripped form is exactly ten ASCII digits; if accepted the untrimmed input is returned, otherwise the error is ValueError |
| Fields.ValidPhoneIsPaddedDigits | task.py:33-35 | every accepted number is ten digits with only whitespace before and after, and those ten digits are its stripped form |
| Fields.PaddedDigitsAreValidPhone | task.py:33-35 | any ten digits with any whitespace around them are accepted, and stripping gives back the digits |
| Fields.ValidPhoneHasNoSemicolon | task.py:34 | an accepted number never contains `;`, so it cannot be confused with the `"; "` separator |
| Fields.PaddedNumberKeptVerbatim | task.py:33-35 | `" 0123456789\t"` is accepted and kept with its padding, although its stripped form differs |
| Fields.Phone.constructor | task.py:22-24 | a phone built from an accepted number holds that number |
| Fields.NewPhone | task.py:22-24 | `Phone(s)` succeeds iff `s` is accepted, with a new object holding `s` untrimmed; otherwise it raises ValueError |
| Fields.Phone.SetValue | task.py:29-31 | the setter succeeds iff the value is accepted, and then stores it untrimmed; otherwise it raises ValueError and the old value stays; a valid phone stays valid |
| Records.FirstIndex | task.py:47-50 | the index of the first value equal to the number: it holds the number and no earlier value does |
| Records.WithoutCounts | task.py:44 | filtering keeps each other value exactly as often as it occurred and drops every copy of the number |
| Records.WithoutAppend | task.py:44 | filtering works part by part, so the kept values stay in their original order |
| Records.WithoutAbsent | task.py:44 | removing a number that is not present changes nothing |
| Records.WithoutIdempotent | task.py:44 | removing the same number twice is the same as removing it once |
| Records.KeptPhones | task.py:44 | the filter keeps only phone objects from the original list |
| Records.KeptPhonesValues | task.py:44 | the values of the kept phone objects are the filtered values |
| Records.KeptPhonesDistinct | task.py:44 | filtering a list with no repeated phone object gives a list with no repeats |
| Records.SplitPlain | task.py:61 | a value with no `;` is not cut when the joined text is split |
| Records.SplitAfter | task.py:61 | a value with no `;` followed by `"; "` is split off whole |
| Records.SplitJoin | task.py:61 | splitting the `"; "`-joined text of a non-empty list of values without `;` gives back the list |
| Records.Join | task.py:61 | `'; '.join(...)` of the phone values; SplitJoin states that Split undoes it |
| Records.RenderShowsPhones | task.py:60-61 | the text of a record with valid phones starts with `Contact name: <name>, phones: `; with no phones nothing follows, otherwise the rest splits back into exactly its phone values, in order |
| Records.Record.ToString | task.py:60-61 | `str(record)`: Render of the record's name and its phone values; RenderShowsPhones states what the text contains |
| Records.Record.constructor | task.py:38-40 | a new record has the given name and no phones |
| Records.NewRecord | task.py:38-40 | `Record(name)` succeeds iff the name is non-empty, with a new record that has that name and no phones; otherwise it raises ValueError |
| Records.Record.AddPhone | task.py:42 | succeeds iff the number is accepted; the values become the old values plus the number, held by a new phone object at the end; otherwise it raises ValueError and the list is unchanged; every stored phone stays valid |
| Records.Record.Append | task.py:42 | appending a valid phone object not yet in the list adds it at the end, keeps the invariant and adds its value at the end of the values |
| Records.Record.RemovePhone | task.py:44 | the list becomes exactly the old phone objects whose value differs from the number, in order; the values become the filtered old values; it never fails |
| Records.Record.EditPhone | task.py:46-52 | raises KeyError if no value equals the number, and ValueError if the new value is rejected; in both cases the values are unchanged; otherwise it returns True and only the first matching value is replaced; the list keeps the same phone objects |
| Records.Record.SetPhoneAt | task.py:49 | the setter applied to the phone at one index changes that value only, or raises ValueError and changes nothing |
| Records.Record.FindPhone | task.py:54-58 | returns the phone object at the first index whose value equals the number exactly, without changing anything; raises KeyError iff no value equals it |
| AddressBooks.AddressBook.constructor | task.py:63 | a new book is empty |
| AddressBooks.AddressBook.AddRecord | task.py:64-67 | files the record under its name iff that name is absent, with no other entry changed; otherwise it raises KeyError and the book, including the record already filed, is unchanged; every record stays filed under its own name |
| AddressBooks.AddressBook.Find | task.py:70-72 | returns the filed record itself iff the name is present, otherwise KeyError; it changes nothing |
| AddressBooks.AddressBook.Delete | task.py:74-76 | if the name is present, removes it and returns its record with every other entry kept; otherwise it raises KeyError and changes nothing |
| Scenarios.EditThroughBook | task.py:94-95 | an edit made on the record returned by `find` is seen in the book: the book still maps the name to the same record, and that record's values show the edit |
| Scenarios.ContactWithTwoPhones | task.py:81-83 | a new record after two `add_phone` calls with valid numbers holds exactly those two values, in order, in new phone objects |
| Scenarios.EditFirstFindSecond | task.py:95-99 | on a record holding two different values, `edit_phone` of the first returns True and replaces only it, and `find_phone` of the second then finds it |
| Scenarios.JohnScenario | task.py:81-99 | John's record after adding `a` and `b`, editing `a` to `c` and finding `b`: the edit returns True, the lookup finds `b`, and the record renders as `Render("John", [c, b])` |
| Scenarios.DemoNumbersValid | task.py:82-95 | the three numbers of the demonstration pass the phone check |
| Scenarios.JohnText | task.py:97 | the values `1112223333` and `5555555555` render under John as `Contact name: John, phones: 1112223333; 5555555555` |
| Scenarios.JohnDemo | task.py:81-99 | the demonstration's calls on John's record with its literal numbers: the edit returns True, `find_phone("5555555555")` finds that number, and `str(john)` is `Contact name: John, phones: 1112223333; 5555555555` |
| Scenarios.DuplicateName | task.py:64-67 | a second record named Jane is refused with KeyError, and `find` still returns the first one with its phone |
| Scenarios.DeleteMissing | task.py:74-76 | deleting a name from an empty book raises KeyError and leaves the book empty |

## Left out

- The demonstration block (task.py:78-102) prints sample output, and printing is not modelled. Its calls on John's record (task.py:81-83, 95, 97, 99) are `Scenarios.JohnDemo`. Its calls on the book are modelled only for arbitrary inputs, in `EditThroughBook`, `DuplicateName` and `DeleteMissing`. No concrete run covers filing John and Jane, then deleting Jane (task.py:85-89, 94, 102). The text of `f"{john.name}: {found_phone}"` (task.py:100) is not modelled.
- The `isinstance` check in `add_record` and its ValueError (task.py:65, 68) are left out. Static types make the check always pass.
- Non-string arguments are left out. For these, `len` or `strip` would raise TypeError or AttributeError.
- Error message texts are left out. Only the error kind is kept, plus the key for KeyError.
- The regular-expression engine is not modelled. The pattern `[0-9]{10}` under `fullmatch` is stated directly as ten characters, each in `'0'..'9'`. `strip()` is modelled with the full set of characters for which Python's `str.isspace()` holds.
- The `Field` base class is folded into `Name` and `Phone`. `Field.__str__` returns the stored string unchanged for both.
- A `Name`'s value cannot be re-assigned in the model. In Python, `record.name.value` could be assigned afterwards without validation.
- Records.Record.Valid also requires that no phone object appears twice in a record. `add_phone` always creates a new object, so this holds for every list the class builds. Python code that mutates `record.phones` directly, or sets it to a list with shared objects, is not modelled.
- The `UserDict` methods that `AddressBook` inherits (such as `book[k] = r` and `del book[k]`) are not modelled. They bypass the checks of `add_record`, `find` and `delete`.
- The insertion order of the dictionary is not modelled. It matters only for printing (task.py:91).
