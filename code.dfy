/** Values and pure computations of the segmented one-time-code input:
    the configuration it is given, the callbacks it makes, the joined code,
    the digit filter of numeric mode and the derivation of the initial boxes. */
module Code {

  datatype Option<T> = None | Some(value: T)

  /** The `type` prop; `Number` is the default and keeps digits only. */
  datatype InputType = Text | Number

  /** The `values` prop: not given, a single string, or one string per box. */
  datatype Supplied = Absent | Str(s: string) | List(items: seq<string>)

  /** One invocation of a host callback, in the order the controller makes them. */
  datatype Event = OnChange(code: string) | OnComplete(code: string)

  /** Which of the two optional callbacks (`onChange`, `onComplete`) the host supplied. */
  datatype Listeners = Listeners(onChange: bool, onComplete: bool)

  /** The keys the key handler distinguishes; every other key is `Other`. */
  datatype Key = Backspace | ArrowLeft | ArrowRight | Other

  function Min(a: int, b: int): (r: int)
    ensures r <= a && r <= b && (r == a || r == b)
  {
    if a <= b then a else b
  }

  /** Number of boxes that hold a value. */
  function FilledCount(vals: seq<string>): (n: nat) {
    if vals == [] then 0 else (if vals[0] != "" then 1 else 0) + FilledCount(vals[1..])
  }

  /** `vals.join('')`: the boxes concatenated in position order. The joined
      code is empty exactly when no box is filled. */
  function Join(vals: seq<string>): (r: string)
    ensures r == "" <==> FilledCount(vals) == 0
  {
    if vals == [] then "" else vals[0] + Join(vals[1..])
  }

  /** Every box holds at most one character. */
  predicate Singles(vals: seq<string>) {
    forall i :: 0 <= i < |vals| ==> |vals[i]| <= 1
  }

  /** When every box holds at most one character, the joined code has one
      character per filled box. */
  lemma {:induction false} JoinLengthOfSingles(vals: seq<string>)
    requires Singles(vals)
    ensures |Join(vals)| == FilledCount(vals)
  {
    if vals != [] {
      assert Singles(vals[1..]) by {
        forall i | 0 <= i < |vals[1..]| ensures |vals[1..][i]| <= 1 {
          assert vals[1..][i] == vals[i + 1];
        }
      }
      JoinLengthOfSingles(vals[1..]);
      assert |vals[0]| == (if vals[0] != "" then 1 else 0);
    }
  }

  /** At most every box is filled, and all are filled exactly when none is empty. */
  lemma {:induction false} FilledCountBound(vals: seq<string>)
    ensures FilledCount(vals) <= |vals|
    ensures FilledCount(vals) == |vals| <==> forall i :: 0 <= i < |vals| ==> vals[i] != ""
  {
    if vals != [] {
      FilledCountBound(vals[1..]);
      if FilledCount(vals) == |vals| {
        forall i | 0 <= i < |vals| ensures vals[i] != "" {
          if i > 0 {
            assert vals[i] == vals[1..][i - 1];
          }
        }
      }
      if forall i :: 0 <= i < |vals| ==> vals[i] != "" {
        forall i | 0 <= i < |vals[1..]| ensures vals[1..][i] != "" {
          assert vals[1..][i] == vals[i + 1];
        }
      }
    }
  }

  /** With single-character boxes, the joined code reaches `fields` characters
      exactly when every one of the `fields` boxes is non-empty. */
  lemma CompleteIffAllFilled(vals: seq<string>, fields: nat)
    requires |vals| == fields && Singles(vals)
    ensures |Join(vals)| >= fields <==> forall i :: 0 <= i < |vals| ==> vals[i] != ""
    ensures |Join(vals)| <= fields
  {
    JoinLengthOfSingles(vals);
    FilledCountBound(vals);
  }

  /** `triggerChange`: `onChange` with the joined code whenever the host gave
      it, then `onComplete` with the same code when the host gave it and the
      code has at least `fields` characters. */
  function Notify(vals: seq<string>, fields: nat, l: Listeners): (r: seq<Event>)
    ensures OnChange(Join(vals)) in r <==> l.onChange
    ensures OnComplete(Join(vals)) in r <==> l.onComplete && |Join(vals)| >= fields
    ensures forall k :: 0 <= k < |r| ==> r[k].code == Join(vals)
    ensures l.onChange ==> r[0] == OnChange(Join(vals))
    ensures |r| == (if l.onChange then 1 else 0) + (if l.onComplete && |Join(vals)| >= fields then 1 else 0)
  {
    var code := Join(vals);
    (if l.onChange then [OnChange(code)] else [])
      + (if l.onComplete && |code| >= fields then [OnComplete(code)] else [])
  }

  /** With single-character boxes, a notification reports completion exactly
      when every box is filled, and the completed code is `fields` long. */
  lemma CompletionReportedIffFilled(vals: seq<string>, fields: nat, l: Listeners)
    requires |vals| == fields && Singles(vals) && l.onComplete
    ensures OnComplete(Join(vals)) in Notify(vals, fields, l)
            <==> forall i :: 0 <= i < |vals| ==> vals[i] != ""
    ensures forall e :: e in Notify(vals, fields, l) && e.OnComplete? ==> |e.code| == fields
  {
    CompleteIffAllFilled(vals, fields);
  }

  /** With single-character boxes, a notification made while some box is
      empty (as after a backspace) never reports completion. */
  lemma EmptyBoxNeverCompletes(vals: seq<string>, fields: nat, l: Listeners, i: nat)
    requires |vals| == fields && Singles(vals) && i < fields && vals[i] == ""
    ensures forall e :: e in Notify(vals, fields, l) ==> e.OnChange?
  {
    CompleteIffAllFilled(vals, fields);
  }

  /** `\d` of a JavaScript regular expression without the `u` flag. */
  predicate IsDigit(c: char) {
    '0' <= c <= '9'
  }

  /** `replace(/[^\d]/gi, '')`: the digits of `s`, in their order. */
  function StripNonDigits(s: string): (r: string)
    ensures |r| <= |s|
    ensures forall i :: 0 <= i < |r| ==> IsDigit(r[i])
    ensures forall c :: c in r <==> c in s && IsDigit(c)
    ensures (forall i :: 0 <= i < |s| ==> IsDigit(s[i])) ==> r == s
  {
    if s == [] then "" else (if IsDigit(s[0]) then [s[0]] else "") + StripNonDigits(s[1..])
  }

  /** Filtering works piece by piece, so the digits keep their relative order. */
  lemma {:induction false} StripNonDigitsAppend(a: string, b: string)
    ensures StripNonDigits(a + b) == StripNonDigits(a) + StripNonDigits(b)
  {
    if a == [] {
      assert a + b == b;
    } else {
      var head := if IsDigit(a[0]) then [a[0]] else "";
      calc {
        StripNonDigits(a + b);
        { assert (a + b)[0] == a[0] && (a + b)[1..] == a[1..] + b; }
        head + StripNonDigits(a[1..] + b);
        { StripNonDigitsAppend(a[1..], b); }
        head + (StripNonDigits(a[1..]) + StripNonDigits(b));
        (head + StripNonDigits(a[1..])) + StripNonDigits(b);
      }
    }
  }

  /** The value a change event goes on with: digits only in numeric mode.
      It is empty, so the event is ignored, exactly when the raw text is
      empty or, in numeric mode, holds no digit. */
  function InputValue(t: InputType, raw: string): (r: string)
    ensures |r| <= |raw|
    ensures t == Text ==> r == raw
    ensures t == Number ==> forall k :: 0 <= k < |r| ==> IsDigit(r[k])
    ensures r == "" <==> if t == Number then forall c :: c in raw ==> !IsDigit(c) else raw == ""
  {
    if t == Number then
      var digits := StripNonDigits(raw);
      assert digits != "" ==> digits[0] in digits;
      digits
    else raw
  }

  /** The boxes after `v` is spread out from box `index`: character `i` of
      `v` goes into box `index + i` while there is such a box. */
  function Spread(vals: seq<string>, index: nat, v: string): (r: seq<string>)
    ensures |r| == |vals|
    decreases |v|
  {
    if v == "" || index >= |vals| then vals
    else Spread(vals[index := [v[0]]], index + 1, v[1..])
  }

  /** Spreading keeps the number of boxes, fills boxes `index` up to the last
      box or `index + |v| - 1` with the characters of `v` in order, and leaves
      every other box as it was. */
  lemma {:induction false} SpreadAt(vals: seq<string>, index: nat, v: string)
    ensures |Spread(vals, index, v)| == |vals|
    ensures forall j :: 0 <= j < |vals| ==>
      Spread(vals, index, v)[j] == if index <= j < index + |v| then [v[j - index]] else vals[j]
    decreases |v|
  {
    if v != "" && index < |vals| {
      var next := vals[index := [v[0]]];
      SpreadAt(next, index + 1, v[1..]);
      forall j | 0 <= j < |vals|
        ensures Spread(vals, index, v)[j] == if index <= j < index + |v| then [v[j - index]] else vals[j]
      {
        if index + 1 <= j < index + |v| {
          assert v[1..][j - (index + 1)] == v[j - index];
        }
      }
    }
  }

  /** One character goes into its own box only. */
  lemma SpreadOne(vals: seq<string>, index: nat, c: char)
    requires index < |vals|
    ensures Spread(vals, index, [c]) == vals[index := [c]]
  {
    assert [c][1..] == "";
  }

  /** A box value the controller may hold: empty or one character, a digit in
      numeric mode. */
  predicate BoxOk(t: InputType, v: string) {
    |v| <= 1 && (t == Number ==> forall k :: 0 <= k < |v| ==> IsDigit(v[k]))
  }

  /** Spreading characters that are valid boxes on their own keeps every
      box valid. */
  lemma {:induction false} SpreadKeepsBoxes(t: InputType, vals: seq<string>, index: nat, v: string)
    requires forall j :: 0 <= j < |vals| ==> BoxOk(t, vals[j])
    requires t == Number ==> forall k :: 0 <= k < |v| ==> IsDigit(v[k])
    ensures forall j :: 0 <= j < |Spread(vals, index, v)| ==> BoxOk(t, Spread(vals, index, v)[j])
  {
    SpreadAt(vals, index, v);
  }

  /** The supplied values indexed by box: a string gives one character per box. */
  function Entries(sup: Supplied): (r: seq<string>)
    ensures sup.Absent? ==> r == []
    ensures sup.Str? ==> |r| == |sup.s| && forall i :: 0 <= i < |r| ==> |r[i]| == 1
    ensures sup.List? ==> r == sup.items
  {
    match sup
    case Absent => []
    case Str(s) => seq(|s|, i requires 0 <= i < |s| => [s[i]])
    case List(items) => items
  }

  /** `values[i] || ''`: the supplied entry at `i`, or empty when there is none. */
  function InitialBox(entries: seq<string>, i: nat): (r: string)
    ensures r == "" || r in entries
    ensures i >= |entries| ==> r == ""
  {
    if i < |entries| then entries[i] else ""
  }

  /** The boxes taken from a supplied string join back to that string. */
  lemma {:induction false} JoinEntriesOfString(s: string)
    ensures Join(Entries(Str(s))) == s
    decreases |s|
  {
    if s != [] {
      var e := Entries(Str(s));
      assert e[1..] == Entries(Str(s[1..]));
      JoinEntriesOfString(s[1..]);
      assert e[0] == [s[0]];
      assert s == [s[0]] + s[1..];
    }
  }

  /** The box that receives focus after a (re)derivation. */
  function InitialFocus(fields: nat, sup: Supplied): (r: nat)
    ensures fields > 0 ==> r < fields
    ensures |Entries(sup)| == 0 || |Entries(sup)| >= fields ==> r == 0
    ensures |Entries(sup)| < fields ==> r == |Entries(sup)|
  {
    var n := |Entries(sup)|;
    if n > 0 then (if n >= fields then 0 else n) else 0
  }

  /** The initialization effect's box array: one entry per box, taken from the
      supplied values where they reach, empty elsewhere. */
  method InitialValues(fields: nat, sup: Supplied) returns (vals: seq<string>)
    ensures |vals| == fields
    ensures forall i :: 0 <= i < fields ==> vals[i] == InitialBox(Entries(sup), i)
    ensures sup.Absent? ==> forall i :: 0 <= i < fields ==> vals[i] == ""
  {
    var entries := Entries(sup);
    if |entries| > 0 {
      vals := [];
      for i := 0 to fields
        invariant |vals| == i
        invariant forall j :: 0 <= j < i ==> vals[j] == InitialBox(entries, j)
      {
        vals := vals + [if i < |entries| && entries[i] != "" then entries[i] else ""];
      }
    } else {
      vals := seq(fields, _ => "");
    }
  }
}
