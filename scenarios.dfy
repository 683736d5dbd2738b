/** Concrete examples of the guest verifier and the submission store, on literal data. */
module Scenarios {
  import opened Wrappers
  import opened JsString
  import opened GuestList
  import opened Submissions

  /** `" Bob "` trims to `"Bob"`. */
  lemma TrimPaddedBob()
    ensures Trim(" Bob ") == "Bob"
  {
    assert " Bob " == " " + "Bob" + " ";
    TrimFinds(" ", "Bob", " ");
  }

  /** Two entries whose names both survive the filter load as those two names, in order. */
  lemma NamesOfTwo(first: Entry, second: Entry, x: string, y: string)
    requires MapEntry(first) == Str(x) && MapEntry(second) == Str(y) && x != [] && y != []
    ensures Names([first, second]) == Some([x, y])
  {
    var es := [first, second];
    assert [first][..0] == [];
    assert Names([first]) == Some([x]) by {
      assert [] + [x] == [x];
    }
    assert es[..|es| - 1] == [first] && es[|es| - 1] == second;
    assert [x] + [y] == [x, y];
  }

  /** A padded `" Alice "` passes the check against the list holding `"Alice"`. */
  lemma PaddedAliceInvited()
    ensures IsInvited(["Alice"], " Alice ")
  {
    assert " Alice " == " " + "Alice" + " ";
    TrimFinds(" ", "Alice", " ");
    assert ["Alice"][0] == "Alice";
  }

  /** A sheet of one plain and one padded name loads as both names, trimmed, in order. */
  lemma AliceAndBobLoad()
    ensures LoadGuestList(Rows([Record(Text("Alice")), Record(Text(" Bob "))])) == Ok(["Alice", "Bob"])
  {
    TrimmedIsFixed("Alice");
    TrimPaddedBob();
    NamesOfTwo(Record(Text("Alice")), Record(Text(" Bob ")), "Alice", "Bob");
  }

  /** The check is exact and case-sensitive: `"Bob"` is invited, `"bob"` is not. */
  lemma AliceAndBobCheck()
    ensures IsInvited(["Alice", "Bob"], "Bob") && !IsInvited(["Alice", "Bob"], "bob")
  {
    TrimmedIsFixed("bob");
    assert "bob"[0] != "Bob"[0] && "bob"[0] != "Alice"[0];
    TrimmedIsFixed("Bob");
    assert ["Alice", "Bob"][1] == "Bob";
  }

  /** An empty sheet is a load failure, not an empty list. */
  lemma EmptySheetFails()
    ensures LoadGuestList(Rows([])) == Err(EmptyList)
  {
  }

  /** A name that is on no list: "Mallory" against the list holding only "Alice". */
  lemma MalloryNotInvited()
    ensures !IsInvited(["Alice"], "Mallory")
  {
    TrimmedIsFixed("Mallory");
    assert "Mallory"[0] != "Alice"[0];
  }

  /** One submission against an empty storage is the whole log. */
  lemma FirstSubmission()
    ensures ReadLog(Appended(map[], Submission("Alice", Hadir, 2, "Congrats!"))) == [Submission("Alice", Hadir, 2, "Congrats!")]
  {
  }

  /** Two submissions made one after another on one storage leave both entries, in submission order. */
  lemma TwoSessions(first: Submission, second: Submission)
    ensures ReadLog(Appended(Appended(map[], first), second)) == [first, second]
  {
    AppendGrowsByOne(map[], first);
    AppendGrowsByOne(Appended(map[], first), second);
  }
}
