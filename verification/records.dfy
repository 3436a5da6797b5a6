/**
 * One contact: a name and a list of phone entries that the methods update in place.
 */
module Records {
  import opened Outcomes
  import opened Fields
  import opened Lists
  import opened Text

  const PhoneNotFoundMessage := "Phone number not found."
  const EditNotFoundMessage := "The phone number not found."
  const NoValueMessage := "'str' object has no attribute 'value'"

  /**
   * One slot of a record's phone list. `add_phone` appends whatever it is given
   * without checking it, and the callers pass strings, so a slot is either that
   * raw string (Raw) or a `Phone` object, which only `edit_phone` creates (Obj).
   * Python's `==` between two slots, or between a slot and a query, is Dafny's
   * `==` on Entry: strings compare by contents, `Phone` objects (no `__eq__`) by
   * identity, and a string never equals a `Phone`.
   */
  datatype Entry = Raw(text: string) | Obj(phone: Phone)

  /** `str(entry)`: a string prints as itself, a `Phone` as its value. */
  function EntryText(e: Entry): (r: string)
    ensures e.Obj? ==> IsPhoneText(r)
  {
    match e
    case Raw(s) => s
    case Obj(p) => p.ToString()
  }

  /** The printed form of every slot, in list order. */
  function EntryTexts(s: seq<Entry>): (r: seq<string>)
    ensures |r| == |s| && forall i :: 0 <= i < |s| ==> r[i] == EntryText(s[i])
  {
    if s == [] then [] else [EntryText(s[0])] + EntryTexts(s[1..])
  }

  /** `p.value == phone` in `remove_phone`: a `Phone`'s value is a str, equal only to the same str. */
  predicate ValueEquals(p: Phone, arg: Entry) {
    arg.Raw? && p.value == arg.text
  }

  /**
   * Where the loop of `remove_phone` stops: at the first `Phone` whose value
   * equals the argument (Match), at a raw string, whose missing `.value` raises
   * AttributeError (NoValue), or at the end of the list (Exhausted).
   */
  datatype Scan = Match(index: nat) | NoValue(index: nat) | Exhausted

  /** The slots that the loop of `remove_phone` walks past: `Phone`s whose value is not the argument. */
  predicate Skipped(e: Entry, arg: Entry) {
    e.Obj? && !ValueEquals(e.phone, arg)
  }

  function ScanForRemoval(s: seq<Entry>, arg: Entry): (r: Scan)
    ensures r.Match? ==> r.index < |s| && s[r.index].Obj? && ValueEquals(s[r.index].phone, arg)
    ensures r.NoValue? ==> r.index < |s| && s[r.index].Raw?
    ensures r.Exhausted? ==> forall j :: 0 <= j < |s| ==> Skipped(s[j], arg)
    ensures r.Match? || r.NoValue? ==> forall j :: 0 <= j < r.index ==> Skipped(s[j], arg)
  {
    if s == [] then Exhausted
    else if s[0].Raw? then NoValue(0)
    else if ValueEquals(s[0].phone, arg) then Match(0)
    else match ScanForRemoval(s[1..], arg)
      case Match(i) => Match(i + 1)
      case NoValue(i) => NoValue(i + 1)
      case Exhausted => Exhausted
  }

  /** A contact (`Record` in the source). The book holds it by reference, so edits through any alias are seen by all. */
  class Record {
    const name: Name
    var phones: seq<Entry>

    /** `Record(name)` once `Name(name)` has accepted the name. */
    constructor (name: NameText)
      ensures this.name == Name(name) && phones == []
    {
      this.name := Name(name);
      phones := [];
    }

    /** `add_phone`: appends its argument as given, with no validation. */
    method AddPhone(e: Entry)
      modifies this
      ensures phones == old(phones) + [e]
    {
      phones := phones + [e];
    }

    /** `find_phone`: the first slot equal to the query, or None; the list is not changed. */
    method FindPhone(query: Entry) returns (r: Option<Entry>)
      ensures r.None? <==> query !in phones
      ensures r.Some? ==> r.value == query && r == Some(phones[FirstIndex(phones, query).value])
    {
      var i := 0;
      while i < |phones|
        invariant 0 <= i <= |phones|
        invariant query !in phones[..i]
      {
        if phones[i] == query {
          return Some(phones[i]);
        }
        assert phones[..i + 1] == phones[..i] + [phones[i]];
        i := i + 1;
      }
      assert phones[..i] == phones;
      return None;
    }

    /**
     * `remove_phone`: walks the list comparing each slot's `.value` with the
     * argument. A raw string met first raises AttributeError; the first matching
     * `Phone` is taken out with `list.remove`, the other slots keeping their order;
     * with no match it raises "Phone number not found.". On an error nothing changes.
     */
    method RemovePhone(arg: Entry) returns (r: Result<()>)
      modifies this
      ensures match ScanForRemoval(old(phones), arg)
        case Match(i) => r == Ok(()) && phones == old(phones)[..i] + old(phones)[i + 1..]
        case NoValue(_) => r == Err(AttributeError(NoValueMessage)) && phones == old(phones)
        case Exhausted => r == Err(ValueError(PhoneNotFoundMessage)) && phones == old(phones)
    {
      var i := 0;
      while i < |phones|
        invariant 0 <= i <= |phones|
        invariant phones == old(phones)
        invariant forall j :: 0 <= j < i ==> Skipped(phones[j], arg)
      {
        var p := phones[i];
        if p.Raw? {
          ScanUnique(phones, arg, NoValue(i));
          return Err(AttributeError(NoValueMessage));
        }
        if ValueEquals(p.phone, arg) {
          ScanUnique(phones, arg, Match(i));
          assert p !in phones[..i] by {
            forall j | 0 <= j < i ensures phones[..i][j] != p {
              assert Skipped(phones[j], arg);
            }
          }
          RemoveFirstAt(phones, p, i);
          phones := RemoveFirst(phones, p);
          return Ok(());
        }
        i := i + 1;
      }
      ScanUnique(phones, arg, Exhausted);
      return Err(ValueError(PhoneNotFoundMessage));
    }

    /**
     * `edit_phone`: finds the first slot equal to `oldEntry`; if there is none it
     * raises "The phone number not found." whatever `newText` is. Otherwise it
     * builds `Phone(newText)`, which raises on a malformed number before anything
     * is assigned, and puts the new object into that same slot: the length and
     * every other slot stay as they were.
     */
    method EditPhone(oldEntry: Entry, newText: string) returns (r: Result<()>)
      modifies this
      ensures match FirstIndex(old(phones), oldEntry)
        case None =>
          r == Err(ValueError(EditNotFoundMessage)) && phones == old(phones)
        case Some(i) =>
          if IsPhoneText(newText) then
            r == Ok(()) && |phones| == |old(phones)| &&
            phones[i].Obj? && fresh(phones[i].phone) && phones[i].phone.value == newText &&
            phones == old(phones)[i := phones[i]]
          else
            r == Err(ValueError(PhoneFormatMessage)) && phones == old(phones)
    {
      var i := 0;
      while i < |phones|
        invariant 0 <= i <= |phones|
        invariant phones == old(phones)
        invariant oldEntry !in phones[..i]
      {
        if phones[i] == oldEntry {
          assert FirstIndex(phones, oldEntry) == Some(i);
          var made := NewPhone(newText);
          if made.Err? {
            return Err(made.error);
          }
          phones := phones[i := Obj(made.value)];
          return Ok(());
        }
        assert phones[..i + 1] == phones[..i] + [phones[i]];
        i := i + 1;
      }
      assert phones[..i] == phones;
      return Err(ValueError(EditNotFoundMessage));
    }

    /** `str(record)`: "Contact name: {name}, phones: " and the slots joined with "; ". */
    function ToString(): (r: string)
      reads this
      ensures phones == [] ==> r == "Contact name: " + name.value + ", phones: "
    {
      "Contact name: " + name.value + ", phones: " + Join("; ", EntryTexts(phones))
    }
  }

  /** A record prints on one line when neither its name nor any printed slot holds a newline. */
  lemma RecordOneLine(rec: Record)
    requires '\n' !in rec.name.value
    requires forall j :: 0 <= j < |rec.phones| ==> '\n' !in EntryText(rec.phones[j])
    ensures '\n' !in rec.ToString()
  {
    JoinAvoids("; ", EntryTexts(rec.phones), '\n');
  }

  /** The contract of ScanForRemoval pins its result down: any scan outcome meeting it is that result. */
  lemma ScanUnique(s: seq<Entry>, arg: Entry, sc: Scan)
    requires sc.Match? ==> sc.index < |s| && s[sc.index].Obj? && ValueEquals(s[sc.index].phone, arg)
    requires sc.NoValue? ==> sc.index < |s| && s[sc.index].Raw?
    requires sc.Exhausted? ==> forall j :: 0 <= j < |s| ==> Skipped(s[j], arg)
    requires sc.Match? || sc.NoValue? ==> forall j :: 0 <= j < sc.index ==> Skipped(s[j], arg)
    ensures ScanForRemoval(s, arg) == sc
  {
  }

  /**
   * The printed record can be read back: when every slot prints as a ten-digit
   * number, slot i is the ten characters at offset 12 * i after the
   * "Contact name: {name}, phones: " head.
   */
  lemma RecordShowsPhone(rec: Record, i: nat)
    requires forall j :: 0 <= j < |rec.phones| ==> IsPhoneText(EntryText(rec.phones[j]))
    requires i < |rec.phones|
    ensures var o := |"Contact name: " + rec.name.value + ", phones: "| + 12 * i;
            o + 10 <= |rec.ToString()| && rec.ToString()[o..o + 10] == EntryText(rec.phones[i])
  {
    var texts := EntryTexts(rec.phones);
    PhoneAtOffset("Contact name: " + rec.name.value + ", phones: ", texts, i);
  }

  /** Part i of ten-digit parts joined by "; " behind a head sits 12 * i characters after the head. */
  lemma PhoneAtOffset(head: string, texts: seq<string>, i: nat)
    requires forall j :: 0 <= j < |texts| ==> |texts[j]| == 10
    requires i < |texts|
    ensures var o := |head| + 12 * i;
            o + 10 <= |head + Join("; ", texts)| && (head + Join("; ", texts))[o..o + 10] == texts[i]
  {
    var joined := Join("; ", texts);
    JoinPartAt("; ", texts, 10, i);
    assert |"; "| == 2;
    assert joined[12 * i..12 * i + 10] == texts[i];
    assert (head + joined)[|head| + 12 * i..|head| + 12 * i + 10] == joined[12 * i..12 * i + 10];
  }

  /** `find_phone` right after `add_phone(e)` returns a slot equal to e: the first one, which is the new slot unless e was there already. */
  lemma FindAfterAdd(s: seq<Entry>, e: Entry)
    ensures FirstIndex(s + [e], e).Some?
    ensures (s + [e])[FirstIndex(s + [e], e).value] == e
    ensures e !in s ==> FirstIndex(s + [e], e) == Some(|s|)
  {
  }

  /**
   * `add_phone` stores the raw string, and `remove_phone` reads `.value` from
   * every slot it passes. Removing the number just added never ends in "not
   * found": the scan stops at a matching `Phone`, at an earlier raw string, or
   * at the new slot itself.
   */
  lemma RemoveAfterAddNeverNotFound(s: seq<Entry>, t: string)
    ensures ScanForRemoval(s + [Raw(t)], Raw(t)) != Exhausted
  {
    assert !Skipped((s + [Raw(t)])[|s|], Raw(t));
  }

  /**
   * When every earlier slot is a `Phone` with another value, removing the number
   * just added raises AttributeError at the new slot.
   */
  lemma RemoveAfterAddRaises(s: seq<Entry>, t: string)
    requires forall j :: 0 <= j < |s| ==> Skipped(s[j], Raw(t))
    ensures ScanForRemoval(s + [Raw(t)], Raw(t)) == NoValue(|s|)
  {
    ScanUnique(s + [Raw(t)], Raw(t), NoValue(|s|));
  }

  /**
   * A slot that `edit_phone` filled holds a `Phone`, so `find_phone` and
   * `edit_phone` with its digits as a string never select it, while
   * `remove_phone` with the same string does (when it is reached).
   */
  lemma EditedSlotByDigits(s: seq<Entry>, i: nat)
    requires i < |s| && s[i].Obj?
    requires forall j :: 0 <= j < i ==> Skipped(s[j], Raw(s[i].phone.value))
    ensures FirstIndex(s, Raw(s[i].phone.value)) != Some(i)
    ensures ScanForRemoval(s, Raw(s[i].phone.value)) == Match(i)
  {
  }

  /** `Record(name)`: `Name(name)` raises on an empty name; otherwise a new record with no phones. */
  method NewRecord(name: string) returns (r: Result<Record>)
    ensures r.Ok? <==> name != []
    ensures r.Ok? ==> fresh(r.value) && r.value.name.value == name && r.value.phones == []
    ensures r.Err? ==> r.error == ValueError(NameEmptyMessage)
  {
    var checked := NewName(name);
    if checked.Err? {
      return Err(checked.error);
    }
    var rec := new Record(checked.value.value);
    return Ok(rec);
  }
}
