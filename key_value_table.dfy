/**
 * The editable key/value table used for headers: row edits that emit the
 * new row list, the suggested system headers the user has not defined yet,
 * and the count of enabled rows.
 */
module KeyValueTable {
  import opened Wrappers
  import opened Strings
  import opened Types

  /** The row `addRow` appends and `removeRow` leaves behind. */
  const EmptyRow := Header("", "", Some(true))

  /** `addRow()`: the rows followed by one empty enabled row. */
  function AddRow(data: seq<Header>): (r: seq<Header>)
    ensures |r| == |data| + 1 && r[..|data|] == data && r[|data|] == EmptyRow
  {
    data + [EmptyRow]
  }

  /** The field an edit writes: `updateRow(index, field, value)`. */
  datatype Edit = SetKey(key: string) | SetValue(value: string) | SetEnabled(enabled: bool)

  /** `{ ...row, [field]: value }`. */
  function Apply(h: Header, e: Edit): (r: Header)
    ensures e.SetKey? ==> r == Header(e.key, h.value, h.enabled)
    ensures e.SetValue? ==> r == Header(h.key, e.value, h.enabled)
    ensures e.SetEnabled? ==> r == Header(h.key, h.value, Some(e.enabled))
  {
    match e
    case SetKey(k) => h.(key := k)
    case SetValue(v) => h.(value := v)
    case SetEnabled(b) => h.(enabled := Some(b))
  }

  /**
   * `updateRow(index, field, value)`: copy the rows into a fresh array,
   * rewrite one field of row `index` and emit the copy; emit nothing for an
   * index past the user rows (a system row).
   */
  method UpdateRow(data: seq<Header>, index: nat, edit: Edit) returns (emitted: Option<seq<Header>>)
    ensures index >= |data| ==> emitted.None?
    ensures index < |data| ==> emitted == Some(data[index := Apply(data[index], edit)])
  {
    if index < |data| {
      var newData := new Header[|data|](i requires 0 <= i < |data| => data[i]);
      assert newData[..] == data;
      newData[index] := Apply(newData[index], edit);
      emitted := Some(newData[..]);
    } else {
      emitted := None;
    }
  }

  /** An update rewrites the one field it names, of the one row it names. */
  lemma UpdateOnlyTouchesField(data: seq<Header>, index: nat, edit: Edit, j: nat)
    requires index < |data| && j < |data|
    ensures var r := data[index := Apply(data[index], edit)];
      |r| == |data| && (j != index ==> r[j] == data[j])
      && (!edit.SetKey? ==> r[index].key == data[index].key)
      && (!edit.SetValue? ==> r[index].value == data[index].value)
      && (!edit.SetEnabled? ==> r[index].enabled == data[index].enabled)
  {
  }

  /** `data.filter((_, i) => i !== index)`. */
  function RemoveAt(data: seq<Header>, index: nat): (r: seq<Header>)
    requires index < |data|
    ensures |r| == |data| - 1
    ensures forall j :: 0 <= j < index ==> r[j] == data[j]
    ensures forall j :: index <= j < |r| ==> r[j] == data[j + 1]
  {
    data[..index] + data[index + 1..]
  }

  /** `removeRow(index)`: drop the row, or leave one empty row in place of the last one. */
  function RemoveRow(data: seq<Header>, index: nat): (r: Option<seq<Header>>)
    ensures index >= |data| <==> r.None?
    ensures r.Some? ==> |r.value| >= 1
    ensures index < |data| && |data| > 1 ==> r == Some(RemoveAt(data, index))
    ensures index < |data| && |data| == 1 ==> r == Some([EmptyRow])
  {
    if index < |data| then
      if |data| > 1 then Some(RemoveAt(data, index)) else Some([EmptyRow])
    else None
  }

  /** A removal drops exactly one copy of the removed row. */
  lemma RemoveKeepsOthers(data: seq<Header>, index: nat)
    requires index < |data|
    ensures multiset(RemoveAt(data, index)) + multiset{data[index]} == multiset(data)
  {
    assert data == data[..index] + [data[index]] + data[index + 1..];
  }

  /** The flag the checkbox shows: `row.enabled !== false`. */
  predicate Displayed(h: Header) {
    NotDisabled(h)
  }

  /** `!data[index].enabled`, the flag `toggleRow` writes, exactly as the code computes it. */
  function ToggledAsWritten(h: Header): bool {
    !(h.enabled == Some(true))
  }

  /** The flag a toggle is meant to write: the opposite of what the checkbox shows. */
  function Toggled(h: Header): (b: bool)
    ensures b <==> !Displayed(h)
  {
    h.enabled == Some(false)
  }

  /** As written, toggling a row whose flag is `undefined` writes `true`, so its checked box stays checked. */
  lemma ToggleAsWrittenKeepsUndefinedChecked(h: Header)
    requires h.enabled.None?
    ensures Displayed(h) && ToggledAsWritten(h)
    ensures Displayed(Apply(h, SetEnabled(ToggledAsWritten(h))))
  {
  }

  /** With the corrected flag, every toggle flips what the checkbox shows, and a second toggle shows it as before. */
  lemma ToggleFlipsDisplay(h: Header)
    ensures Displayed(Apply(h, SetEnabled(Toggled(h)))) <==> !Displayed(h)
    ensures Displayed(Apply(Apply(h, SetEnabled(Toggled(h))), SetEnabled(Toggled(Apply(h, SetEnabled(Toggled(h))))))) == Displayed(h)
  {
  }

  /** The two agree on every row with a defined flag. */
  lemma ToggleAgreesWhenDefined(h: Header)
    requires h.enabled.Some?
    ensures ToggledAsWritten(h) == Toggled(h)
  {
    if h.enabled.value {
      assert h.enabled == Some(true);
      assert !ToggledAsWritten(h);
      assert !Toggled(h);
    } else {
      assert h.enabled == Some(false);
      assert ToggledAsWritten(h);
      assert Toggled(h);
    }
  }

  /**
   * `toggleRow(index)` as written: `updateRow(index, 'enabled', !row.enabled)`
   * for a user row, nothing for a system row. The checkbox flips for a row
   * with a defined flag and stays checked for one without.
   */
  method ToggleRow(data: seq<Header>, index: nat) returns (emitted: Option<seq<Header>>)
    ensures index >= |data| ==> emitted.None?
    ensures index < |data| ==> emitted.Some? && |emitted.value| == |data|
    ensures index < |data| ==> emitted.value[index] == data[index].(enabled := Some(ToggledAsWritten(data[index])))
    ensures index < |data| && data[index].enabled.Some? ==> Displayed(emitted.value[index]) != Displayed(data[index])
    ensures index < |data| && data[index].enabled.None? ==> Displayed(emitted.value[index]) && Displayed(data[index])
    ensures index < |data| ==> forall j :: 0 <= j < |data| && j != index ==> emitted.value[j] == data[j]
  {
    if index < |data| {
      emitted := UpdateRow(data, index, SetEnabled(ToggledAsWritten(data[index])));
      if data[index].enabled.Some? {
        ToggleAgreesWhenDefined(data[index]);
      }
    } else {
      emitted := None;
    }
  }

  /** The corrected toggle: writes the opposite of what the checkbox shows, so the box always flips. */
  method ToggleRowCorrected(data: seq<Header>, index: nat) returns (emitted: Option<seq<Header>>)
    ensures index >= |data| ==> emitted.None?
    ensures index < |data| ==> emitted.Some? && |emitted.value| == |data|
    ensures index < |data| ==> emitted.value[index] == data[index].(enabled := Some(Toggled(data[index])))
    ensures index < |data| ==> Displayed(emitted.value[index]) != Displayed(data[index])
    ensures index < |data| ==> forall j :: 0 <= j < |data| && j != index ==> emitted.value[j] == data[j]
  {
    if index < |data| {
      emitted := UpdateRow(data, index, SetEnabled(Toggled(data[index])));
    } else {
      emitted := None;
    }
  }

  const Calculated := "<calculated when request is sent>"

  /** The suggested headers, each enabled. */
  const SystemHeaders: seq<Header> := [
    Header("Postman-Token", Calculated, Some(true)),
    Header("Host", Calculated, Some(true)),
    Header("User-Agent", "PostmanRuntime/7.44.0", Some(true)),
    Header("Accept", "*/*", Some(true)),
    Header("Accept-Encoding", "gzip, deflate, br", Some(true)),
    Header("Connection", "keep-alive", Some(true))
  ]

  /** The rows' keys, lower-cased, in row order. */
  function LowerKeys(data: seq<Header>): (r: seq<string>)
    ensures |r| == |data|
    decreases |data|
  {
    if data == [] then [] else [ToLower(data[0].key)] + LowerKeys(data[1..])
  }

  /** `isHeaderDefined(key)`: some row has that key, ignoring ASCII letter case. */
  function IsHeaderDefined(data: seq<Header>, key: string): (b: bool)
    ensures b <==> ToLower(key) in LowerKeys(data)
    decreases |data|
  {
    if data == [] then false
    else ToLower(data[0].key) == ToLower(key) || IsHeaderDefined(data[1..], key)
  }

  /** The letter case of the key asked about does not matter. */
  lemma {:induction false} DefinedIgnoresCase(data: seq<Header>, key: string)
    ensures IsHeaderDefined(data, ToLower(key)) == IsHeaderDefined(data, key)
    decreases |data|
  {
    ToLowerIdempotent(key);
    if data != [] {
      DefinedIgnoresCase(data[1..], key);
    }
  }

  /** Every row defines its own key. */
  lemma {:induction false} RowDefinesItsKey(data: seq<Header>, i: nat)
    requires i < |data|
    ensures IsHeaderDefined(data, data[i].key)
    decreases i
  {
    if i > 0 {
      RowDefinesItsKey(data[1..], i - 1);
    }
  }

  /** `systemHeaders.filter(header => !isHeaderDefined(header.key))`, over any list of headers. */
  function Undefined(data: seq<Header>, hs: seq<Header>): (r: seq<Header>)
    ensures |r| <= |hs|
    ensures forall x :: x in r <==> x in hs && !IsHeaderDefined(data, x.key)
    decreases |hs|
  {
    if hs == [] then []
    else
      var rest := Undefined(data, hs[1..]);
      assert forall x :: x in hs <==> x == hs[0] || x in hs[1..];
      if IsHeaderDefined(data, hs[0].key) then rest else [hs[0]] + rest
  }

  /** The filter works piecewise, so the suggestions shown keep their listed order. */
  lemma {:induction false} UndefinedAppend(data: seq<Header>, a: seq<Header>, b: seq<Header>)
    ensures Undefined(data, a + b) == Undefined(data, a) + Undefined(data, b)
    decreases |a|
  {
    if a == [] {
      assert a + b == b;
    } else {
      assert (a + b)[0] == a[0];
      assert (a + b)[1..] == a[1..] + b;
      UndefinedAppend(data, a[1..], b);
    }
  }

  /** `getFilteredSystemHeaders()`. */
  function FilteredSystemHeaders(data: seq<Header>): (r: seq<Header>)
    ensures forall x :: x in r <==> x in SystemHeaders && !IsHeaderDefined(data, x.key)
  {
    Undefined(data, SystemHeaders)
  }

  /** A user `accept` header, in any letter case, hides the suggested `Accept`. */
  lemma AcceptHiddenByLowercase(data: seq<Header>, i: nat)
    requires i < |data| && ToLower(data[i].key) == ToLower("Accept")
    ensures SystemHeaders[3] !in FilteredSystemHeaders(data)
  {
    RowDefinesItsKey(data, i);
    assert SystemHeaders[3].key == "Accept";
  }

  /** With no rows every suggestion is shown, in its order. */
  lemma NothingDefinedShowsAll(hs: seq<Header>)
    ensures Undefined([], hs) == hs
  {
  }

  /** `addSystemHeader(header)`: a copy of its key and value, enabled, after the rows. */
  function AddSystemHeader(data: seq<Header>, header: Header): (r: seq<Header>)
    ensures |r| == |data| + 1 && r[..|data|] == data
    ensures r[|data|] == Header(header.key, header.value, Some(true))
  {
    data + [Header(header.key, header.value, Some(true))]
  }

  /** Adopting a suggestion hides it from the suggestions. */
  lemma AdoptedSuggestionHidden(data: seq<Header>, header: Header)
    ensures header !in FilteredSystemHeaders(AddSystemHeader(data, header))
  {
    var r := AddSystemHeader(data, header);
    RowDefinesItsKey(r, |data|);
    assert ToLower(r[|data|].key) == ToLower(header.key);
  }

  /** The number of rows shown as enabled with a non-blank key. */
  function EnabledCount(data: seq<Header>): (n: nat)
    ensures n <= |data|
    ensures n == |data| <==> forall i :: 0 <= i < |data| ==> Active(data[i])
    ensures n == 0 <==> forall i :: 0 <= i < |data| ==> !Active(data[i])
    decreases |data|
  {
    if data == [] then 0
    else
      var rest := EnabledCount(data[1..]);
      assert forall i :: 1 <= i < |data| ==> data[i] == data[1..][i - 1];
      (if Active(data[0]) then 1 else 0) + rest
  }

  /** Counting works piecewise. */
  lemma {:induction false} EnabledCountAppend(a: seq<Header>, b: seq<Header>)
    ensures EnabledCount(a + b) == EnabledCount(a) + EnabledCount(b)
    decreases |a|
  {
    if a == [] {
      assert a + b == b;
    } else {
      assert (a + b)[0] == a[0];
      assert (a + b)[1..] == a[1..] + b;
      EnabledCountAppend(a[1..], b);
    }
  }

  /** A new empty row is blank, so adding it leaves the count as it was. */
  lemma AddRowKeepsCount(data: seq<Header>)
    ensures EnabledCount(AddRow(data)) == EnabledCount(data)
  {
    EnabledCountAppend(data, [EmptyRow]);
    assert EnabledCount([EmptyRow]) == 0 by {
      assert Trim("") == "";
    }
  }

  /** The table's toggled view state. */
  class TableView {
    /** `showHiddenHeaders`. */
    var showHiddenHeaders: bool

    constructor()
      ensures !showHiddenHeaders
    {
      showHiddenHeaders := false;
    }

    /** The eye button flips the view. */
    method ToggleHidden()
      modifies this
      ensures showHiddenHeaders == !old(showHiddenHeaders)
    {
      showHiddenHeaders := !showHiddenHeaders;
    }

    /** `allHeaders`: the rows, followed by the suggestions when shown. */
    function AllHeaders(data: seq<Header>): (r: seq<Header>)
      reads this
      ensures |r| >= |data| && r[..|data|] == data
      ensures !showHiddenHeaders ==> r == data
      ensures showHiddenHeaders ==> r[|data|..] == FilteredSystemHeaders(data)
    {
      if showHiddenHeaders then data + FilteredSystemHeaders(data) else data
    }
  }
}
