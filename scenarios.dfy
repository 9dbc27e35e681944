/** Client code that uses only the contracts of the controller: typing a code
    box by box, finishing it with a paste, deleting, and deriving the boxes
    from a supplied string. The lemmas compute the concrete box arrays and
    notifications apart from the heap, which keeps each step small. */
module Scenarios {
  import opened Code
  import opened ReactCodeInput

  const Both := Listeners(true, true)

  /** `c` is a six-box numeric input reporting to both callbacks, holding
      `vals` after the callbacks `evs`. */
  ghost predicate Shows(c: CodeInput, vals: seq<string>, evs: seq<Event>)
    reads c, c.values
  {
    c.Valid() && c.fields == 6 && c.inputType == Number && c.listeners == Both
    && c.values[..] == vals && c.events == evs
  }

  lemma TypedOne(s: seq<string>)
    requires s == Spread(["", "", "", "", "", ""], 0, "1")
    ensures s == ["1", "", "", "", "", ""]
    ensures Notify(s, 6, Both) == [OnChange("1")]
  {
    SpreadOne(["", "", "", "", "", ""], 0, '1');
    assert s == ["1", "", "", "", "", ""];
    assert Join(["1", "", "", "", "", ""]) == "1";
  }

  lemma TypedTwo(s: seq<string>)
    requires s == Spread(["1", "", "", "", "", ""], 1, "2")
    ensures s == ["1", "2", "", "", "", ""]
    ensures Notify(s, 6, Both) == [OnChange("12")]
  {
    SpreadOne(["1", "", "", "", "", ""], 1, '2');
    assert s == ["1", "2", "", "", "", ""];
    assert Join(["1", "2", "", "", "", ""]) == "12";
  }

  lemma TypedThree(s: seq<string>)
    requires s == Spread(["1", "2", "", "", "", ""], 2, "3")
    ensures s == ["1", "2", "3", "", "", ""]
    ensures Notify(s, 6, Both) == [OnChange("123")]
  {
    SpreadOne(["1", "2", "", "", "", ""], 2, '3');
    assert s == ["1", "2", "3", "", "", ""];
    assert Join(["1", "2", "3", "", "", ""]) == "123";
  }

  lemma Pasted(s: seq<string>)
    requires s == Spread(["1", "2", "3", "", "", ""], 3, "456")
    ensures s == ["1", "2", "3", "4", "5", "6"]
    ensures Notify(s, 6, Both) == [OnChange("123456"), OnComplete("123456")]
  {
    SpreadAt(["1", "2", "3", "", "", ""], 3, "456");
    assert s == ["1", "2", "3", "4", "5", "6"];
    assert Join(["4", "5", "6"]) == "456";
    assert Join(["1", "2", "3", "4", "5", "6"]) == "123456";
  }

  /** Six numeric boxes, initially empty; "1" typed into box 0. */
  method TypeFirst() returns (c: CodeInput)
    ensures fresh(c) && fresh(c.values)
    ensures Shows(c, ["1", "", "", "", "", ""], [OnChange("1")])
  {
    c := new CodeInput(Number, Both, true, 6, Absent);
    ghost var s0 := c.values[..];
    assert s0 == ["", "", "", "", "", ""];
    assert InputValue(Number, "1") == "1";
    var t := c.Change(0, "1");
    assert t == Some(1);
    TypedOne(c.values[..]);
  }

  /** "2" typed into box 1 reports "12" and moves focus to box 2. */
  method TypeSecond(c: CodeInput)
    requires Shows(c, ["1", "", "", "", "", ""], [OnChange("1")])
    modifies c, c.values
    ensures c.values == old(c.values)
    ensures Shows(c, ["1", "2", "", "", "", ""], [OnChange("1"), OnChange("12")])
  {
    ghost var s1 := c.values[..];
    assert InputValue(Number, "2") == "2";
    var t := c.Change(1, "2");
    assert t == Some(2);
    TypedTwo(c.values[..]);
  }

  /** "3" typed into box 2 reports "123" and still no completion. */
  method TypeThird(c: CodeInput)
    requires Shows(c, ["1", "2", "", "", "", ""], [OnChange("1"), OnChange("12")])
    modifies c, c.values
    ensures c.values == old(c.values)
    ensures Shows(c, ["1", "2", "3", "", "", ""], [OnChange("1"), OnChange("12"), OnChange("123")])
  {
    ghost var s2 := c.values[..];
    ghost var e2 := c.events;
    assert InputValue(Number, "3") == "3";
    var t := c.Change(2, "3");
    assert t == Some(3);
    ghost var s3 := c.values[..];
    TypedThree(s3);
    assert c.events == e2 + Notify(s3, 6, Both);
  }

  /** "456" pasted into box 3 fills the last three boxes, focuses box 5, and
      reports both the change and the completion of "123456". */
  method PasteLast(c: CodeInput)
    requires Shows(c, ["1", "2", "3", "", "", ""], [OnChange("1"), OnChange("12"), OnChange("123")])
    modifies c, c.values
    ensures Shows(c, ["1", "2", "3", "4", "5", "6"],
                  [OnChange("1"), OnChange("12"), OnChange("123"), OnChange("123456"), OnComplete("123456")])
  {
    ghost var typed := c.events;
    ghost var before := c.values[..];
    assert InputValue(Number, "456") == "456";
    var t := c.Change(3, "456");
    assert t == Some(5);
    Pasted(c.values[..]);
  }

  /** The whole sequence: three keystrokes, then the paste that completes it. */
  method TypeThenPaste() {
    var c := TypeFirst();
    TypeSecond(c);
    TypeThird(c);
    PasteLast(c);
    assert c.events[4] == OnComplete("123456");
  }

  /** A letter typed into a numeric box changes nothing and notifies no one. */
  method LetterIgnored() {
    var c := new CodeInput(Number, Both, true, 4, Str("12"));
    assert StripNonDigits("a") == "";
    var t := c.Change(2, "a");
    assert t == None && c.events == [];
  }

  lemma ClearedBoth(s: seq<string>, after: seq<string>)
    requires s == ["a", "b", ""][1 := ""] && after == s[0 := ""]
    ensures Notify(s, 3, Listeners(true, false)) == [OnChange("a")]
    ensures after == ["", "", ""]
    ensures Notify(after, 3, Listeners(true, false)) == [OnChange("")]
  {
    assert s == ["a", "", ""];
    assert Join(["a", "", ""]) == "a";
    assert Join(["", "", ""]) == "";
  }

  /** Backspace on a filled box with a predecessor clears both, in two
      notifications, and focuses the predecessor. */
  method BackspaceTwice() {
    assert Entries(Str("ab")) == ["a", "b"];
    var c := new CodeInput(Text, Listeners(true, false), true, 3, Str("ab"));
    ghost var before := c.values[..];
    assert before == ["a", "b", ""];
    var t := c.KeyDown(Backspace, 1);
    assert t == Some(0);
    ghost var after := c.values[..];
    assert after == before[1 := ""][0 := ""];
    ClearedBoth(before[1 := ""], after);
    assert c.events == [OnChange("a"), OnChange("")];
  }

  /** `values="12"` with six boxes: the first two boxes are filled and the
      autofocus index is 2; clearing then empties every box and sends focus
      to box 0 without a notification. */
  method DeriveFromString() {
    assert Entries(Str("12")) == ["1", "2"];
    var c := new CodeInput(Number, Both, true, 6, Str("12"));
    assert c.values[..] == ["1", "2", "", "", "", ""];
    assert c.autoFocusIndex == 2;
    var t := c.ClearValues();
    assert t == Some(0) && c.values[..] == ["", "", "", "", "", ""] && c.events == [];
  }
}
