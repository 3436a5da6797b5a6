# Contact book model

A Dafny model of `bot_oop.py`, a small in-memory contact book:

- `Name` and `Phone` are validated values. Both share the `Field` wrapper, which stores the value and prints it back. A name may not be empty. A phone number must be exactly ten digits.
- A `Record` is one contact. It has a fixed name and a list of phone entries. `add_phone`, `find_phone`, `edit_phone` and `remove_phone` scan that list and update it in place.
- An `AddressBook` is a dict from a contact's name to its `Record`. It supports `add_record`, `find` and `delete`. Printing it joins the records in key insertion order.

Modules, one per part of the source:

- `Outcomes` (outcomes.dfy): `Option` for `None`-returning lookups, and `Result`/`Error` for the `ValueError`/`AttributeError` the code raises.
- `Fields` (fields.dfy): `Name` (a datatype), `Phone` (a class, since `Phone` has no `__eq__` and compares by identity), and the `\d{10}` full match.
- `Lists` (lists.dfy): the Python list and dict primitives the code relies on. These are the first match, `list.remove`, and dict key order under assignment and `del`.
- `Text` (text.dfy): `str.join`, and how a joined string is read back into its parts: by offset when the parts have one width, and by splitting at a one-character separator that no part contains.
- `Records` (records.dfy): the `Record` class. Its `phones` field is a `seq<Entry>` that the methods reassign.
- `AddressBooks` (address_book.dfy): the `AddressBook` class. It has an `order: seq<string>` of keys beside `data: map<string, Record>`. Records are held by reference.
- `Scenario` (scenario.dfy): the John and Jane walk-through at the end of the file. Its printed lines are stated as postconditions.

Entries of a record's phone list: `add_phone` stores its argument without checking it, and the callers pass strings. `edit_phone` stores a new `Phone` object. So an entry is `Raw(text)` or `Obj(phone)`. Python's `==` between entries is then exactly Dafny's `==` on `Entry`:
- strings compare by contents;
- `Phone` objects compare by identity;
- a string never equals a `Phone`.

Behaviour the model keeps as the code has it:
- `edit_phone` puts the new `Phone` into the slot of the old entry. It does not append, so the order is kept.
- `edit_phone` looks for the old entry first. When it is absent, the call raises "The phone number not found." even if the new number is malformed. Only after a match is the new number validated.
- `add_phone` does not validate.
- `find_phone` and `edit_phone` compare entries with `==`. `remove_phone` compares each entry's `.value` with the argument.
- So removing a number just added as a string never ends in "Phone number not found.": the scan stops at a matching `Phone`, at an earlier raw string, or at the new slot (`RemoveAfterAddNeverNotFound`). When every earlier slot is a `Phone` with another value, `remove_phone` reaches the raw string and raises `AttributeError` (`RemoveAfterAddRaises`).
- A number written in by `edit_phone` is never found by `find_phone` or `edit_phone` with its digits as a string. When every earlier slot is a `Phone` with another value, `remove_phone` with those digits does find it (`EditedSlotByDigits`).
- `Phone` equality is identity, not value.

## Model

| member | source | states |
|---|---|---|
| Fields.FullMatchDigits | bot_oop.py:27 | the `\d{n}` full match: a string it accepts is exactly n characters long |
| Fields.FullMatchDigitsIff | bot_oop.py:27 | `re.fullmatch(r"\d{10}", s)` succeeds exactly when `s` has length 10 and every character is a digit |
| Fields.NewName | bot_oop.py:17-20 | `Name(v)` raises `ValueError("Name cannot be empty.")` exactly when `v` is empty; otherwise it stores `v` unchanged and `str()` gives `v` back |
| Fields.NewPhone | bot_oop.py:26-29 | `Phone(v)` succeeds exactly when `v` is ten digits and then is a new object whose value and printed form are `v`; otherwise it raises `ValueError("Phone number must contain exactly 10 digits.")` |
| Fields.Phone.constructor | bot_oop.py:26-29 | a `Phone` built from a ten-digit string stores that string as its value (the check itself is `Fields.NewPhone`) |
| Lists.FirstIndex | bot_oop.py:61-63 | the first-match scan: None exactly when the element is absent; otherwise an index holding it with no earlier occurrence |
| Lists.RemoveFirst | bot_oop.py:47 | `list.remove(x)` on a list holding `x`: one element shorter, and the multiset loses exactly one `x` |
| Lists.RemoveFirstAt | bot_oop.py:45-47 | `list.remove(x)` removes exactly the element at x's first index; the others keep their order |
| Lists.Assign | bot_oop.py:77 | dict key order after `d[k] = v`: existing keys keep their positions, a new key is appended, nothing is duplicated, an existing key leaves the order unchanged |
| Lists.Without | bot_oop.py:84 | dict key order after `del d[k]`: exactly the other keys remain, still without duplicates |
| Lists.WithoutAt | bot_oop.py:82-84 | on distinct keys, `del` cuts out the single slot holding the key, and the other keys keep their relative order |
| Text.Join | bot_oop.py:68 | `sep.join(parts)`: empty for no parts; otherwise it starts with the first part, followed by `sep` when there is a second part |
| Text.JoinSnoc | bot_oop.py:68 | the join read from the back: the join of all but the last part, then `sep`, then the last part |
| Text.JoinAvoids | bot_oop.py:68 | a character in neither the separator nor any part is not in the join |
| Text.SplitJoin | bot_oop.py:89 | for one or more parts, none containing the character c, splitting their join by c at c gives the parts back |
| Text.JoinLength | bot_oop.py:68 | when all parts have width w, n > 0 such parts joined by `sep` are n·w characters plus n − 1 separators long |
| Text.JoinPartAt | bot_oop.py:68 | when all parts have width w, part i of `sep.join(parts)` is the w characters at offset i·(w + separator length), so the join can be read back |
| Records.EntryText | bot_oop.py:11-12 | `str(p)` of one entry: a raw string prints as itself, and a `Phone` prints as its value, which is ten digits |
| Records.EntryTexts | bot_oop.py:68 | `str(p) for p in self.phones`: one printed string per entry, in list order |
| Records.ScanForRemoval | bot_oop.py:45-49 | where the `remove_phone` loop stops: the first `Phone` whose value equals the argument, or the first raw string (its `.value` raises), with every earlier entry a non-matching `Phone`; otherwise the list is exhausted |
| Records.Record.constructor | bot_oop.py:35-37 | a record starts with the given name and an empty phone list |
| Records.NewRecord | bot_oop.py:35-37 | `Record(name)` raises the `Name` error exactly when the name is empty; otherwise a new record with that name and no phones |
| Records.Record.AddPhone | bot_oop.py:40-41 | the new list is the old list plus the argument at the end, unvalidated |
| Records.Record.FindPhone | bot_oop.py:60-64 | returns the first entry equal to the query, which is the query itself, or None exactly when no entry equals it; the list is not changed |
| Records.Record.RemovePhone | bot_oop.py:44-49 | on a match removes exactly that entry, the rest keeping their order; a raw string reached first raises `AttributeError`; no match raises "Phone number not found."; on every error the list is unchanged |
| Records.Record.EditPhone | bot_oop.py:52-57 | old entry absent: raises "The phone number not found." whatever the new value is. Present but new value malformed: the `Phone` error, list unchanged. Otherwise the first matching slot becomes a fresh `Phone` of the new value, with the same length and every other slot as before |
| Records.Record.ToString | bot_oop.py:67-68 | `str(record)`: with no phones it is the bare "Contact name: {name}, phones: " head |
| Records.RecordOneLine | bot_oop.py:67-68 | a record prints on one line when neither its name nor any printed entry holds a newline |
| Records.PhoneAtOffset | bot_oop.py:68 | ten-character parts joined by "; " behind any head: part i is the ten characters 12·i past the head |
| Records.RecordShowsPhone | bot_oop.py:67-68 | when every entry prints as ten digits, entry i can be read back from the printed record at offset 12·i after the "Contact name: {name}, phones: " head |
| Records.FindAfterAdd | bot_oop.py:60-64 | `find_phone(e)` right after `add_phone(e)` finds an entry equal to `e`, and it is the new slot when `e` was not there before |
| Records.RemoveAfterAddNeverNotFound | bot_oop.py:40-49 | `remove_phone(t)` right after `add_phone(t)` never raises "Phone number not found.", whatever the list held before |
| Records.RemoveAfterAddRaises | bot_oop.py:40-49 | when every earlier slot is a `Phone` with another value, `remove_phone(t)` right after `add_phone(t)` reaches the new raw string and raises `AttributeError` |
| Records.EditedSlotByDigits | bot_oop.py:44-62 | an entry written by `edit_phone` is never selected by `find_phone`/`edit_phone` with its digits as a string; when every earlier slot is a `Phone` with another value, `remove_phone` with them selects it |
| AddressBooks.AddressBook.constructor | bot_oop.py:71 | a new book is empty and satisfies the book invariant |
| AddressBooks.AddressBook.AddRecord | bot_oop.py:74-77 | the record is stored by reference under its own name (last write wins), every other key maps as before, the key order is `Assign`ed, and the invariant is kept |
| AddressBooks.AddressBook.Find | bot_oop.py:79-80 | None exactly when the name is absent; otherwise the stored record itself, and under the invariant its name is the query |
| AddressBooks.AddressBook.Delete | bot_oop.py:82-86 | a present name is removed from map and order and nothing else changes; an absent name raises "Record not found." and the book is unchanged |
| AddressBooks.AddressBook.Lines | bot_oop.py:88-89 | `str(record) for record in self.data.values()`: line i is the printed record under the i-th key |
| AddressBooks.AddressBook.ToString | bot_oop.py:88-89 | `str(book)`: an empty book prints as the empty string |
| AddressBooks.BookReadsBack | bot_oop.py:88-89 | when no record prints with a newline, splitting the printed book at the newlines gives each record's printed form, in key insertion order |
| Scenario.BuildBook | bot_oop.py:93-109 | after the walk-through's insertions the book maps John then Jane to their records, with the phones as added |
| Scenario.EditThroughFind | bot_oop.py:114-118 | the record `find("John")` returns is the one the book holds; after the edit its first slot holds the new number, the second is untouched, and it prints "Contact name: John, phones: 1112223333; 5555555555" |
| Scenario.FindAndDelete | bot_oop.py:121-129 | `find_phone("5555555555")` prints as "John: 5555555555", and after deleting Jane the book prints John's line alone |
| Scenario.JohnAndJane | bot_oop.py:93-129 | the walk-through prints the two-record book, then "Contact name: John, phones: 1112223333; 5555555555" after editing through `find`, then "John: 5555555555", then the book with John alone |

## Left out

- The demo script's `print` calls (bot_oop.py:93-129) are I/O. The printed strings are the postconditions of `Scenario.JohnAndJane`.
- `\d` is modelled as the ASCII digits '0'..'9'. Python's `\d` on `str` also matches other Unicode decimal digits, and those are not in this model.
- The `re` engine is replaced by `FullMatchDigits`, a direct model of the one pattern used.
- `Name` accepts any truthy object in Python. The model takes strings only, and the empty string stands for every falsy value.
- The arguments of `add_phone`, `find_phone`, `edit_phone` and `remove_phone` may be any Python object. The model takes a string or a `Phone`. A non-string `new_phone` in `edit_phone`, which would make `re.fullmatch` raise `TypeError`, is not modelled.
- The `isinstance` check in `add_record` (bot_oop.py:75-76) cannot fail under Dafny's typing.
- `UserDict` machinery other than `self.data` is library code and is not part of this model.
- Python exception classes and tracebacks are not modelled. Each raise is an `Err` carrying the exception kind and its message. The `AttributeError` message is CPython's wording.
- `Field` is not a type of its own. Its constructor and `__str__` are the stored value and `ToString` of `Name` and `Phone`.
- Reassigning `record.name` from outside is not modelled: the name is a constant, and the source never reassigns it.
