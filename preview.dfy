/** The output preview map (src/preview.js): hovering over a point shows a
    popup with a table of the point's properties, placed over the copy of the
    point the pointer is on; clicking the point keeps the popup open until it
    is closed. */
module Preview {
  import opened Strings

  // ---------------------------------------------------------------------------
  // The property table.

  /** A feature property: key and (string) value. */
  type Property = (string, string)

  function PropertyKey(p: Property): string
  {
    p.0
  }

  /** `/^http[s]?:\/\//.test(value)` */
  predicate IsHttpUrl(value: string)
  {
    StartsWith(value, "http://") || StartsWith(value, "https://")
  }

  const AnchorOpen: string := "<a referrerpolicy=\"no-referrer\" target=\"_blank\" href=\""
  const WikidataPage: string := "https://www.wikidata.org/wiki/"
  const AnchorMiddle: string := "\">"
  const AnchorClose: string := "</a>"

  function UrlLink(value: string): string
  {
    AnchorOpen + value + AnchorMiddle + value + AnchorClose
  }

  function WikidataLink(value: string): string
  {
    AnchorOpen + WikidataPage + value + AnchorMiddle + value + AnchorClose
  }

  /** `t` occurs in `s` at position `i`. */
  predicate OccursAt(s: string, t: string, i: nat)
  {
    i + |t| <= |s| && s[i..i + |t|] == t
  }

  ghost predicate Contains(s: string, t: string)
  {
    exists i: nat :: OccursAt(s, t, i)
  }

  lemma LinkContains(prefix: string, value: string, suffix: string)
    ensures Contains(prefix + value + suffix, value)
  {
    var s := prefix + value + suffix;
    assert s[|prefix|..|prefix| + |value|] == value;
    assert OccursAt(s, value, |prefix|);
  }

  lemma ContainsTransitive(s: string, t: string, u: string)
    requires Contains(s, t) && Contains(t, u)
    ensures Contains(s, u)
  {
    var i: nat :| OccursAt(s, t, i);
    var j: nat :| OccursAt(t, u, j);
    assert forall k :: 0 <= k < |u| ==> s[i + j + k] == s[i..i + |t|][j + k] == t[j + k] == u[k];
    assert s[i + j..i + j + |u|] == u;
    assert OccursAt(s, u, i + j);
  }

  lemma UrlLinkContains(value: string)
    ensures Contains(UrlLink(value), value) && |UrlLink(value)| > |value|
  {
    assert UrlLink(value) == AnchorOpen + value + (AnchorMiddle + value + AnchorClose);
    LinkContains(AnchorOpen, value, AnchorMiddle + value + AnchorClose);
  }

  lemma WikidataLinkContains(value: string)
    ensures Contains(WikidataLink(value), value) && |WikidataLink(value)| > |value|
  {
    assert WikidataLink(value) == (AnchorOpen + WikidataPage) + value + (AnchorMiddle + value + AnchorClose);
    LinkContains(AnchorOpen + WikidataPage, value, AnchorMiddle + value + AnchorClose);
  }

  /** The value cell of a property: a URL becomes a link to itself, and then
      the value of a `…:wikidata` key becomes a Wikidata link (wrapping the
      first link when both apply). The cell is the bare value exactly when the
      value is not a URL and the key is not a Wikidata key; otherwise it is
      longer. */
  function CellValue(key: string, value: string): (cell: string)
    ensures cell == value <==> !IsHttpUrl(value) && !EndsWith(key, ":wikidata")
    ensures |cell| >= |value|
  {
    var linked := if IsHttpUrl(value) then UrlLink(value) else value;
    if EndsWith(key, ":wikidata") then WikidataLink(linked) else linked
  }

  /** The value always shows in its cell, and when both rules apply the
      Wikidata link wraps the URL link. */
  lemma CellValueMeaning(key: string, value: string)
    ensures Contains(CellValue(key, value), value)
    ensures IsHttpUrl(value) && EndsWith(key, ":wikidata") ==>
      Contains(CellValue(key, value), UrlLink(value))
  {
    var linked := if IsHttpUrl(value) then UrlLink(value) else value;
    if IsHttpUrl(value) {
      UrlLinkContains(value);
    } else {
      assert OccursAt(linked, value, 0);
    }
    if EndsWith(key, ":wikidata") {
      WikidataLinkContains(linked);
      ContainsTransitive(WikidataLink(linked), linked, value);
    }
  }

  function TableRow(p: Property): string
  {
    "<tr><th>" + p.0 + "</th><td>" + CellValue(p.0, p.1) + "</td></tr>"
  }

  /** The rows of the table, in the order given. */
  function TableRows(props: seq<Property>): string
  {
    if props == [] then "" else TableRows(props[..|props| - 1]) + TableRow(props[|props| - 1])
  }

  /** The properties in ascending key order (`Object.keys(...).sort()`). */
  function SortedProperties(props: seq<Property>): (sorted: seq<Property>)
  {
    SortBy(props, PropertyKey, false)
  }

  /** The sorted properties are the same properties, in ascending key order. */
  lemma SortedPropertiesOrder(props: seq<Property>)
    ensures multiset(SortedProperties(props)) == multiset(props)
    ensures forall i, j :: 0 <= i < j < |SortedProperties(props)| ==>
      !Less(SortedProperties(props)[j].0, SortedProperties(props)[i].0)
  {
    var sorted := SortedProperties(props);
    SortBySorted(props, PropertyKey, false);
    forall i, j | 0 <= i < j < |sorted|
      ensures !Less(sorted[j].0, sorted[i].0)
    {
      assert Precedes(PropertyKey(sorted[i]), PropertyKey(sorted[j]), false);
    }
  }

  /** The loop of the hover handler: one row per property, in the order given. */
  method DescribeRows(sorted: seq<Property>) returns (rows: string)
    ensures rows == TableRows(sorted)
  {
    rows := "";
    for i := 0 to |sorted|
      invariant rows == TableRows(sorted[..i])
    {
      assert sorted[..i + 1][..i] == sorted[..i];
      var key := sorted[i].0;
      var value := sorted[i].1;
      if IsHttpUrl(value) {
        value := UrlLink(value);
      }
      if EndsWith(key, ":wikidata") {
        value := WikidataLink(value);
      }
      assert value == CellValue(key, sorted[i].1);
      rows := rows + ("<tr><th>" + key + "</th><td>" + value + "</td></tr>");
    }
    assert sorted[..|sorted|] == sorted;
  }

  /** The popup HTML for a point, built the way the hover handler builds it:
      the rows of the properties in ascending key order, inside a table. */
  method DescribeProperties(properties: seq<Property>) returns (description: string)
    ensures description == "<table>" + TableRows(SortedProperties(properties)) + "</table>"
  {
    description := "<table>";
    var rows := DescribeRows(SortedProperties(properties));
    description := description + rows;
    description := description + "</table>";
  }

  /** The rows of two lists of properties are the rows of the first followed
      by the rows of the second: one row per property, in order. */
  lemma {:induction false} TableRowsAppend(a: seq<Property>, b: seq<Property>)
    ensures TableRows(a + b) == TableRows(a) + TableRows(b)
  {
    if b != [] {
      var b' := b[..|b| - 1];
      TableRowsAppend(a, b');
      assert (a + b)[..|a + b| - 1] == a + b';

    } else {
      assert a + b == a;
    }
  }

  // ---------------------------------------------------------------------------
  // Placing the popup over the copy of the point under the pointer.

  function Abs(x: real): real
  {
    if x < 0.0 then -x else x
  }

  /** One step of the wrap loop brings the longitude strictly closer (in whole
      degrees) while it is more than 180 degrees away. */
  lemma WrapStepCloser(lng: real, c: real)
    requires Abs(lng - c) > 180.0
    ensures var next := if lng > c then c + 360.0 else c - 360.0;
      Abs(lng - next).Floor < Abs(lng - c).Floor
  {
    var d := lng - c;
    var next := if lng > c then c + 360.0 else c - 360.0;
    var d' := lng - next;
    assert Abs(d).Floor >= 180;
    if d > 0.0 {
      assert d' == d - 360.0;
      if d' >= 0.0 {
        assert Abs(d').Floor == Abs(d).Floor - 360;
      } else {
        assert Abs(d') < 180.0;
      }
    } else {
      assert d' == d + 360.0;
      if d' <= 0.0 {
        assert Abs(d') == Abs(d) - 360.0;
        assert Abs(d').Floor == Abs(d).Floor - 360;
      } else {
        assert Abs(d') < 180.0;
      }
    }
  }

  /** How many whole turns of 360 degrees the wrap loop adds (negative when
      it subtracts). */
  function WrapTurns(lng: real, c: real): (k: int)
    ensures Abs(lng - (c + 360.0 * k as real)) <= 180.0
    ensures Abs(lng - c) <= 180.0 ==> k == 0
    decreases Abs(lng - c).Floor
  {
    if Abs(lng - c) <= 180.0 then 0
    else
      var step := if lng > c then 1 else -1;
      WrapStepCloser(lng, c);
      var k := WrapTurns(lng, c + 360.0 * step as real);
      assert (c + 360.0 * step as real) + 360.0 * k as real == c + 360.0 * (step + k) as real;
      step + k
  }

  /** The longitude the wrap loop ends with: the start moved by whole turns to
      within 180 degrees of the pointer. */
  function WrappedLongitude(lng: real, c: real): (w: real)
    ensures Abs(lng - w) <= 180.0
    ensures w == c + 360.0 * WrapTurns(lng, c) as real
    ensures Abs(lng - c) <= 180.0 ==> w == c
  {
    c + 360.0 * WrapTurns(lng, c) as real
  }

  /** The wrap loop: moves `coordinates[0]` by whole turns until it is within
      180 degrees of the pointer's longitude, touching nothing else. */
  method WrapLongitude(lng: real, coordinates: array<real>)
    requires coordinates.Length >= 1
    modifies coordinates
    ensures coordinates[0] == WrappedLongitude(lng, old(coordinates[0]))
    ensures forall j :: 1 <= j < coordinates.Length ==> coordinates[j] == old(coordinates[j])
  {
    while Abs(lng - coordinates[0]) > 180.0
      invariant WrappedLongitude(lng, coordinates[0]) == WrappedLongitude(lng, old(coordinates[0]))
      invariant forall j :: 1 <= j < coordinates.Length ==> coordinates[j] == old(coordinates[j])
      decreases Abs(lng - coordinates[0]).Floor
    {
      WrapStepCloser(lng, coordinates[0]);
      coordinates[0] := coordinates[0] + if lng > coordinates[0] then 360.0 else -360.0;
    }
  }

  // ---------------------------------------------------------------------------
  // The sticky popup.

  /** The popup as the event handlers see it: whether it is shown, and the
      `stickyPopup` flag. */
  datatype PopupState = PopupState(open: bool, sticky: bool)

  /** The events the handlers react to. `Close` is the popup's own close
      event. */
  datatype PopupEvent = MouseEnter | Click | Close | MouseLeave

  /** One handler run: hovering shows the popup, a click makes it sticky,
      closing hides it and clears the flag, and leaving hides it unless it is
      sticky. */
  function Step(s: PopupState, e: PopupEvent): (r: PopupState)
    ensures r.sticky <==> e == Click || (s.sticky && e != Close)
    ensures r.open <==> e == MouseEnter || (s.open && e != Close && (e != MouseLeave || s.sticky))
  {
    match e
    case MouseEnter => s.(open := true)
    case Click => s.(sticky := true)
    case Close => PopupState(false, false)
    case MouseLeave => if s.sticky then s else s.(open := false)
  }

  function Run(s: PopupState, events: seq<PopupEvent>): PopupState
  {
    if events == [] then s else Step(Run(s, events[..|events| - 1]), events[|events| - 1])
  }

  const Initial: PopupState := PopupState(false, false)

  /** Leaving the point hides the popup exactly when it has not been clicked. */
  lemma LeaveHidesUnlessSticky(s: PopupState)
    ensures !Step(s, MouseLeave).open <==> !s.sticky || !s.open
    ensures Step(s, MouseLeave).sticky == s.sticky
  {
  }

  /** Once the popup is shown and sticky, no event other than `Close` hides
      it or clears the flag. */
  lemma {:induction false} StickyUntilClosed(s: PopupState, events: seq<PopupEvent>)
    requires s.open && s.sticky
    requires forall k :: 0 <= k < |events| ==> events[k] != Close
    ensures Run(s, events).open && Run(s, events).sticky
  {
    if events != [] {
      StickyUntilClosed(s, events[..|events| - 1]);
    }
  }

  /** Without a click, the popup is never sticky, so leaving a point always
      hides it. */
  lemma {:induction false} NeverStickyWithoutClick(events: seq<PopupEvent>)
    requires forall k :: 0 <= k < |events| ==> events[k] != Click
    ensures !Run(Initial, events).sticky
    ensures !Step(Run(Initial, events), MouseLeave).open
  {
    if events != [] {
      NeverStickyWithoutClick(events[..|events| - 1]);
    }
  }

  /** The popup and the handlers' shared flag. */
  class PreviewPopup {
    var open: bool
    var sticky: bool
    var html: string
    var position: seq<real>

    function State(): PopupState
      reads this
    {
      PopupState(open, sticky)
    }

    constructor ()
      ensures State() == Initial
      ensures html == "" && position == []
    {
      open := false;
      sticky := false;
      html := "";
      position := [];
    }

    /** The `mouseenter` handler: describe the point and show the popup over
        the copy of the point nearest the pointer. */
    method OnMouseEnter(properties: seq<Property>, geometry: seq<real>, lng: real)
      requires |geometry| >= 1
      modifies this
      ensures State() == Step(old(State()), MouseEnter)
      ensures html == "<table>" + TableRows(SortedProperties(properties)) + "</table>"
      ensures |position| == |geometry|
      ensures position[0] == WrappedLongitude(lng, geometry[0])
      ensures position[1..] == geometry[1..]
    {
      var coordinates := new real[|geometry|];
      forall i | 0 <= i < |geometry| {
        coordinates[i] := geometry[i];
      }
      var description := DescribeProperties(properties);
      WrapLongitude(lng, coordinates);
      html := description;
      position := coordinates[..];
      open := true;
    }

    /** The `click` handler. */
    method OnClick()
      modifies this
      ensures State() == Step(old(State()), Click)
      ensures html == old(html) && position == old(position)
    {
      sticky := true;
    }

    /** The popup's `close` event. */
    method OnClose()
      modifies this
      ensures State() == Step(old(State()), Close)
      ensures html == old(html) && position == old(position)
    {
      sticky := false;
      open := false;
    }

    /** The `mouseleave` handler. */
    method OnMouseLeave()
      modifies this
      ensures State() == Step(old(State()), MouseLeave)
      ensures html == old(html) && position == old(position)
    {
      if !sticky {
        open := false;
      }
    }
  }
}
