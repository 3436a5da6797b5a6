/**
 * The John and Jane walk-through at the end of bot_oop.py, with the printed
 * lines it documents as postconditions. It shows the aliasing: the record that
 * `find` returns is the one the book holds, so editing it changes the book.
 */
module Scenario {
  import opened Outcomes
  import opened Text
  import opened Lists
  import opened Records
  import opened AddressBooks

  /** The walk-through up to its first print: John with two numbers, Jane with one, both in the book. */
  method BuildBook() returns (book: AddressBook, john: Record, jane: Record)
    ensures fresh(book) && fresh(john) && fresh(jane)
    ensures book.Valid() && book.order == ["John", "Jane"] && book.data == map["John" := john, "Jane" := jane]
    ensures john.name.value == "John" && john.phones == [Raw("1234567890"), Raw("5555555555")]
    ensures jane.name.value == "Jane" && jane.phones == [Raw("9876543210")]
  {
    book := new AddressBook();

    var made := NewRecord("John");
    john := made.value;
    john.AddPhone(Raw("1234567890"));
    john.AddPhone(Raw("5555555555"));
    book.AddRecord(john);
    assert book.order == ["John"];

    made := NewRecord("Jane");
    jane := made.value;
    jane.AddPhone(Raw("9876543210"));
    assert "Jane" !in ["John"] by { assert "Jane"[1] != "John"[1]; }
    book.AddRecord(jane);
  }

  method JohnAndJane() returns (bookBefore: string, johnAfterEdit: string, foundLine: string, bookAfter: string)
    ensures bookBefore == "Contact name: John, phones: 1234567890; 5555555555\nContact name: Jane, phones: 9876543210"
    ensures johnAfterEdit == "Contact name: John, phones: 1112223333; 5555555555"
    ensures foundLine == "John: 5555555555"
    ensures bookAfter == "Contact name: John, phones: 1112223333; 5555555555"
  {
    var book, johnRecord, janeRecord := BuildBook();
    FirstPrint(book, johnRecord, janeRecord);
    bookBefore := book.ToString();

    var john;
    john, johnAfterEdit := EditThroughFind(book);
    assert john == johnRecord;
    foundLine, bookAfter := FindAndDelete(book, john);
  }

  /**
   * `book.find("John").edit_phone("1234567890", "1112223333")`: `find` hands
   * back the very record the book holds, so the edit is seen through the book.
   */
  method EditThroughFind(book: AddressBook) returns (john: Record, printed: string)
    requires book.Valid() && "John" in book.data
    requires book.data["John"].phones == [Raw("1234567890"), Raw("5555555555")]
    modifies book.data["John"]
    ensures john == book.data["John"] && john.name.value == "John" && |john.phones| == 2
    ensures john.phones[0].Obj? && john.phones[0].phone.value == "1112223333"
    ensures john.phones[1] == Raw("5555555555")
    ensures printed == "Contact name: John, phones: 1112223333; 5555555555"
  {
    john := book.Find("John").value;
    assert FirstIndex(john.phones, Raw("1234567890")) == Some(0);
    var edited := john.EditPhone(Raw("1234567890"), "1112223333");
    JohnAfterEdit(john);
    printed := john.ToString();
  }

  /** The rest of the walk-through: look up John's second number, then delete Jane and print the book. */
  method FindAndDelete(book: AddressBook, john: Record) returns (foundLine: string, bookAfter: string)
    requires book.Valid() && book.order == ["John", "Jane"] && book.data["John"] == john
    requires john.name.value == "John" && |john.phones| == 2
    requires john.phones[0].Obj? && john.phones[0].phone.value == "1112223333"
    requires john.phones[1] == Raw("5555555555")
    modifies book
    ensures foundLine == "John: 5555555555"
    ensures bookAfter == "Contact name: John, phones: 1112223333; 5555555555"
  {
    var found := john.FindPhone(Raw("5555555555"));
    foundLine := john.name.ToString() + ": " + (match found case Some(e) => EntryText(e) case None => "None");
    assert foundLine == "John: 5555555555";

    var deleted := book.Delete("Jane");
    assert "Jane" != "John" by { assert "Jane"[1] != "John"[1]; }
    assert ["John", "Jane"][1..] == ["Jane"];
    assert book.order == ["John"];
    BookOfOne(book, john);
    JohnAfterEdit(john);
    bookAfter := book.ToString();
  }

  /** The first print of the book: both records, John's first, each with its numbers as added. */
  lemma FirstPrint(book: AddressBook, john: Record, jane: Record)
    requires book.Valid() && book.order == ["John", "Jane"] && book.data == map["John" := john, "Jane" := jane]
    requires john.name.value == "John" && john.phones == [Raw("1234567890"), Raw("5555555555")]
    requires jane.name.value == "Jane" && jane.phones == [Raw("9876543210")]
    ensures book.ToString() == "Contact name: John, phones: 1234567890; 5555555555\nContact name: Jane, phones: 9876543210"
  {
    JohnBeforeEdit(john);
    JaneLine(jane);
    BookOfTwo(book, john, jane);
    LinesOfTwo(john.ToString(), jane.ToString());
  }

  lemma JohnBeforeEdit(john: Record)
    requires john.name.value == "John" && john.phones == [Raw("1234567890"), Raw("5555555555")]
    ensures john.ToString() == "Contact name: John, phones: 1234567890; 5555555555"
  {
    PrintedRecord(john, ["1234567890", "5555555555"]);
  }

  lemma JaneLine(jane: Record)
    requires jane.name.value == "Jane" && jane.phones == [Raw("9876543210")]
    ensures jane.ToString() == "Contact name: Jane, phones: 9876543210"
  {
  }

  /** The two printed lines joined: kept apart from the heap so the solver sees only the strings. */
  lemma LinesOfTwo(a: string, b: string)
    requires a == "Contact name: John, phones: 1234567890; 5555555555"
    requires b == "Contact name: Jane, phones: 9876543210"
    ensures a + "\n" + b == "Contact name: John, phones: 1234567890; 5555555555\nContact name: Jane, phones: 9876543210"
  {
  }

  /** John after the edit: the new number in the first slot, the second slot untouched. */
  lemma JohnAfterEdit(john: Record)
    requires john.name.value == "John" && |john.phones| == 2
    requires john.phones[0].Obj? && john.phones[0].phone.value == "1112223333"
    requires john.phones[1] == Raw("5555555555")
    ensures john.ToString() == "Contact name: John, phones: 1112223333; 5555555555"
  {
    PrintedRecord(john, ["1112223333", "5555555555"]);
  }

  lemma BookOfTwo(book: AddressBook, x: Record, y: Record)
    requires book.Valid() && |book.order| == 2
    requires book.data[book.order[0]] == x && book.data[book.order[1]] == y
    ensures book.ToString() == x.ToString() + "\n" + y.ToString()
  {
    assert book.Lines(book.order) == [x.ToString(), y.ToString()];
    JoinTwo("\n", x.ToString(), y.ToString());
  }

  lemma BookOfOne(book: AddressBook, x: Record)
    requires book.Valid() && |book.order| == 1 && book.data[book.order[0]] == x
    ensures book.ToString() == x.ToString()
  {
  }

  /** How the walk-through's records print: one or two numbers after the name. */
  lemma PrintedRecord(r: Record, texts: seq<string>)
    requires |texts| == |r.phones| && (|texts| == 1 || |texts| == 2)
    requires forall i :: 0 <= i < |texts| ==> EntryText(r.phones[i]) == texts[i]
    ensures |texts| == 1 ==> r.ToString() == "Contact name: " + r.name.value + ", phones: " + texts[0]
    ensures |texts| == 2 ==> r.ToString() == "Contact name: " + r.name.value + ", phones: " + texts[0] + "; " + texts[1]
  {
    assert EntryTexts(r.phones) == texts;
    if |texts| == 2 {
      assert texts == [texts[0], texts[1]];
      JoinTwo("; ", texts[0], texts[1]);
    }
  }

  lemma JoinTwo(sep: string, a: string, b: string)
    ensures Join(sep, [a, b]) == a + sep + b
  {
  }
}
