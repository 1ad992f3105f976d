/** The collaborative checklist (src/components/CollaborativeChecklist.tsx): a
    per-mount list of items toggled with attribution and appended from a text box. */
module CollaborativeChecklist {
  import opened Types
  import Aggregates

  datatype ChecklistItem = ChecklistItem(
    id: string,
    text: string,
    completed: bool,
    completedBy: Option<string>,
    timestamp: Option<int>)

  /** The fixed identity recorded by a toggle. */
  const CurrentUser := "Current User"

  /** Attribution and timestamp are present exactly when the item is completed. */
  predicate Attributed(it: ChecklistItem)
  {
    (it.completedBy.Some? <==> it.completed) && (it.timestamp.Some? <==> it.completed)
  }

  predicate AllAttributed(items: seq<ChecklistItem>)
  {
    forall i :: 0 <= i < |items| ==> Attributed(items[i])
  }

  predicate UniqueIds(items: seq<ChecklistItem>)
  {
    forall i, j :: 0 <= i < j < |items| ==> items[i].id != items[j].id
  }

  predicate IdUnused(items: seq<ChecklistItem>, id: string)
  {
    forall i :: 0 <= i < |items| ==> items[i].id != id
  }

  /** One item after its toggle. */
  function ToggleEntry(it: ChecklistItem, now: int): (r: ChecklistItem)
    ensures r.completed == !it.completed
    ensures r.completed ==> r.completedBy == Some(CurrentUser) && r.timestamp == Some(now)
    ensures !r.completed ==> r.completedBy == None && r.timestamp == None
    ensures r.id == it.id && r.text == it.text
    ensures Attributed(r)
  {
    it.(completed := !it.completed,
        completedBy := if !it.completed then Some(CurrentUser) else None,
        timestamp := if !it.completed then Some(now) else None)
  }

  /** `toggleItem`'s `prev.map(...)`: toggle every item whose id matches. */
  function ToggleItems(items: seq<ChecklistItem>, id: string, now: int): (r: seq<ChecklistItem>)
    ensures |r| == |items|
    ensures forall i :: 0 <= i < |items| && items[i].id == id ==> r[i] == ToggleEntry(items[i], now)
    ensures forall i :: 0 <= i < |items| && items[i].id != id ==> r[i] == items[i]
  {
    if items == [] then []
    else
      var rest := ToggleItems(items[1..], id, now);
      var r := [if items[0].id == id then ToggleEntry(items[0], now) else items[0]] + rest;
      assert forall i :: 1 <= i < |items| ==> r[i] == rest[i - 1] && items[i] == items[1..][i - 1];
      r
  }

  /** Toggling keeps the attribution rule and every id in place. */
  lemma ToggleKeepsInvariant(items: seq<ChecklistItem>, id: string, now: int)
    requires AllAttributed(items) && UniqueIds(items)
    ensures AllAttributed(ToggleItems(items, id, now))
    ensures UniqueIds(ToggleItems(items, id, now))
  {
    var r := ToggleItems(items, id, now);
    assert forall i :: 0 <= i < |items| ==> r[i].id == items[i].id;
  }

  /** Toggling an attributed item twice restores it exactly when it was open;
      a completed item comes back attributed to the current user at the new time. */
  lemma ToggleEntryTwice(it: ChecklistItem, t1: int, t2: int)
    requires Attributed(it)
    ensures ToggleEntry(ToggleEntry(it, t1), t2).completed == it.completed
    ensures !it.completed ==> ToggleEntry(ToggleEntry(it, t1), t2) == it
    ensures it.completed ==> ToggleEntry(ToggleEntry(it, t1), t2) == it.(completedBy := Some(CurrentUser), timestamp := Some(t2))
  {
  }

  /** The whitespace `trim` removes, restricted to ASCII. */
  predicate IsSpace(c: char)
  {
    c == ' ' || c == '\t' || c == '\n' || c == '\r' || c == '\U{000B}' || c == '\U{000C}'
  }

  predicate AllSpace(s: string)
  {
    forall k :: 0 <= k < |s| ==> IsSpace(s[k])
  }

  /** The number of leading whitespace characters. */
  function LeadingSpace(s: string): (n: nat)
    ensures n <= |s|
    ensures AllSpace(s[..n])
    ensures n < |s| ==> !IsSpace(s[n])
  {
    if s == [] || !IsSpace(s[0]) then 0
    else
      var n := 1 + LeadingSpace(s[1..]);
      assert forall k :: 1 <= k < n ==> s[..n][k] == s[1..][..n - 1][k - 1];
      n
  }

  /** The number of trailing whitespace characters. */
  function TrailingSpace(s: string): (n: nat)
    ensures n <= |s|
    ensures AllSpace(s[|s| - n..])
    ensures n < |s| ==> !IsSpace(s[|s| - 1 - n])
  {
    if s == [] || !IsSpace(s[|s| - 1]) then 0
    else
      var init := s[..|s| - 1];
      var n := 1 + TrailingSpace(init);
      assert s[|s| - n..] == init[|init| - (n - 1)..] + [s[|s| - 1]];
      n
  }

  /** `String.prototype.trim`: the trimmed text is a contiguous piece of the
      input, everything cut away is whitespace, it neither starts nor ends with
      whitespace, and it is empty exactly when the input is all whitespace. */
  function Trim(s: string): (r: string)
    ensures exists i, j :: 0 <= i <= j <= |s| && r == s[i..j] && AllSpace(s[..i]) && AllSpace(s[j..])
    ensures r != [] ==> !IsSpace(r[0]) && !IsSpace(r[|r| - 1])
    ensures r == [] <==> AllSpace(s)
  {
    var i := LeadingSpace(s);
    var rest := s[i..];
    var n := TrailingSpace(rest);
    var r := rest[..|rest| - n];
    assert r == s[i..|s| - n];
    assert s[|s| - n..] == rest[|rest| - n..];
    assert r == [] ==> AllSpace(s) by {
      if r == [] {
        assert rest[|rest| - n..] == rest;
        assert s[..i] == s;
      }
    }
    assert r != [] ==> !IsSpace(r[0]) && !IsSpace(r[|r| - 1]) && !AllSpace(s) by {
      if r != [] {
        assert r[0] == s[i];
        assert r[|r| - 1] == rest[|rest| - 1 - n];
      }
    }
    r
  }

  /** Trimming twice changes nothing more. */
  lemma TrimIdempotent(s: string)
    ensures Trim(Trim(s)) == Trim(s)
  {
    var t := Trim(s);
    assert LeadingSpace(t) == 0;
    assert t[0..] == t;
    assert TrailingSpace(t) == 0;
  }

  /** `newItem.trim()` is empty: the add button ignores the input. */
  predicate IsBlank(s: string)
  {
    Trim(s) == []
  }

  /** `items.filter(item => item.completed).length`. */
  function CompletedCount(items: seq<ChecklistItem>): (r: nat)
    ensures r <= |items|
    ensures r == |items| <==> forall i :: 0 <= i < |items| ==> items[i].completed
    ensures r == 0 <==> forall i :: 0 <= i < |items| ==> !items[i].completed
  {
    if items == [] then 0
    else
      var rest := CompletedCount(items[1..]);
      assert forall i :: 1 <= i < |items| ==> items[i] == items[1..][i - 1];
      (if items[0].completed then 1 else 0) + rest
  }

  /** Counting distributes over concatenation: an appended item adds its own
      flag to the count and leaves the rest alone. */
  lemma {:induction false} CompletedCountAppend(a: seq<ChecklistItem>, b: seq<ChecklistItem>)
    ensures CompletedCount(a + b) == CompletedCount(a) + CompletedCount(b)
  {
    if a == [] {
      assert a + b == b;
    } else {
      assert (a + b)[1..] == a[1..] + b;
      CompletedCountAppend(a[1..], b);
    }
  }

  /** The displayed `Math.round(progress)`; defined for the non-empty list. */
  function ProgressPercent(items: seq<ChecklistItem>): (p: int)
    requires |items| > 0
    ensures 2 * |items| * p <= 200 * CompletedCount(items) + |items| < 2 * |items| * (p + 1)
    ensures 0 <= p <= 100
    ensures p == 100 <== forall i :: 0 <= i < |items| ==> items[i].completed
    ensures p == 0 <== forall i :: 0 <= i < |items| ==> !items[i].completed
  {
    Aggregates.PercentInRange(CompletedCount(items), |items|);
    Aggregates.PercentEndpoints(|items|);
    Aggregates.RoundPercent(CompletedCount(items), |items|)
  }

  function SeedItems(now: int): (items: seq<ChecklistItem>)
    ensures |items| == 3 && AllAttributed(items) && UniqueIds(items)
  {
    [ ChecklistItem("1", "Complete Chapter 5 exercises", true, Some("John Doe"), Some(now - 3600000)),
      ChecklistItem("2", "Submit lab report", false, None, None),
      ChecklistItem("3", "Review lecture notes", true, Some("Jane Smith"), Some(now - 7200000)) ]
  }

  /** The component's state: `items` and the `newItem` text box. */
  class ChecklistState {
    var items: seq<ChecklistItem>
    var newItem: string

    /** Items are never removed from the seeded three, they stay attributed and
        their ids stay unique. */
    ghost predicate Valid()
      reads this
    {
      |items| >= 3 && AllAttributed(items) && UniqueIds(items)
    }

    constructor (now: int)
      ensures Valid() && items == SeedItems(now) && newItem == ""
    {
      items := SeedItems(now);
      newItem := "";
    }

    /** The progress bar's rounded figure; the list is never empty. */
    function Progress(): int
      reads this
      requires Valid()
    {
      ProgressPercent(items)
    }

    /** Typing in the text box. */
    method SetNewItem(text: string)
      requires Valid()
      modifies this
      ensures Valid() && newItem == text && items == old(items)
    {
      newItem := text;
    }

    /** `toggleItem`. */
    method ToggleItem(id: string, now: int)
      requires Valid()
      modifies this
      ensures Valid()
      ensures items == ToggleItems(old(items), id, now)
      ensures newItem == old(newItem)
    {
      ToggleKeepsInvariant(items, id, now);
      items := ToggleItems(items, id, now);
    }

    /** `addItem`: ignore blank input; otherwise append the trimmed text as an
        open item under a fresh id and clear the box. */
    method AddItem(id: string)
      requires Valid() && IdUnused(items, id)
      modifies this
      ensures Valid()
      ensures IsBlank(old(newItem)) ==> items == old(items) && newItem == old(newItem)
      ensures !IsBlank(old(newItem)) ==>
        items == old(items) + [ChecklistItem(id, Trim(old(newItem)), false, None, None)] && newItem == ""
    {
      if !IsBlank(newItem) {
        items := items + [ChecklistItem(id, Trim(newItem), false, None, None)];
        newItem := "";
      }
    }
  }

  /** Leading and trailing blanks are cut from a padded entry. */
  lemma TrimPadded()
    ensures Trim("  Read chapter 6 ") == "Read chapter 6"
    ensures !IsBlank("  Read chapter 6 ")
  {
    var s := "  Read chapter 6 ";
    assert LeadingSpace(s[2..]) == 0;
    assert LeadingSpace(s) == 2;
    assert s[2..] == "Read chapter 6 ";
    assert TrailingSpace("Read chapter 6") == 0;
    assert "Read chapter 6 "[..14] == "Read chapter 6";
    assert TrailingSpace("Read chapter 6 ") == 1;
  }

  /** Adding "  Read chapter 6 " to a fresh checklist appends "Read chapter 6". */
  method AddTrimmedScenario(now: int) returns (last: string, count: nat, box: string)
    ensures last == "Read chapter 6" && count == 4 && box == ""
  {
    var list := new ChecklistState(now);
    list.SetNewItem("  Read chapter 6 ");
    TrimPadded();
    assert !IsBlank(list.newItem);
    list.AddItem("4");
    last, count, box := list.items[|list.items| - 1].text, |list.items|, list.newItem;
  }
}
