/** The RMCF configuration decoder: ACPI can only return nested arrays, so dictionaries, arrays and booleans are
    written in an array encoding that this code undoes. */
module Rmcf {

  import opened Options

  datatype Obj =
    | Str(text: string)
    | Num(number: int)
    | Bool(truth: bool)
    | Arr(items: seq<Obj>)
    | Dict(entries: seq<Entry>)

  datatype Entry = Entry(key: string, value: Obj)

  /** A translation: the new object if there is one, and the old object with the edits that were made to it in
      place, also when there is none. */
  datatype Translation = Translation(result: Option<Obj>, edited: Obj) {
    /** What stands in the old object's place afterwards. */
    function Value(): Obj {
      if result.Some? then result.value else edited
    }
  }

  function TranslateString(text: string): (r: Option<Obj>) {
    if text == ">y" then Some(Bool(true))
    else if text == ">n" then Some(Bool(false))
    else if text == ">>y" || text == ">>n" then Some(Str(text[1..]))
    else None
  }

  function TranslateEntry(obj: Obj): (t: Translation)
    decreases obj, 1
  {
    match obj
    case Arr(items) => TranslateArray(items)
    case Str(text) => Translation(TranslateString(text), obj)
    case _ => Translation(None, obj)
  }

  /** A leading empty array marks an array; anything else of even length is a dictionary of keys and values in turn. */
  function TranslateArray(items: seq<Obj>): (t: Translation)
    decreases items, 2
  {
    if items == [] then Translation(None, Arr(items))
    else if items[0] == Arr([]) then
      var out := Arr(TranslateItems(items[1..]));
      Translation(Some(out), out)
    else if |items| % 2 == 1 then Translation(None, Arr(items))
    else
      var (dict, edited) := TranslatePairs(items, []);
      Translation(if dict.Some? then Some(Dict(dict.value)) else None, Arr(edited))
  }

  function TranslateItems(items: seq<Obj>): (r: seq<Obj>)
    ensures |r| == |items|
    decreases items, 0
  {
    if items == [] then [] else [TranslateEntry(items[0]).Value()] + TranslateItems(items[1..])
  }

  /** Builds the dictionary on top of `dict`; a key that is not a string stops it, with the edits so far left behind. */
  function TranslatePairs(items: seq<Obj>, dict: seq<Entry>): (r: (Option<seq<Entry>>, seq<Obj>))
    requires |items| % 2 == 0
    ensures |r.1| == |items|
    decreases items, 0
  {
    if items == [] then (Some(dict), [])
    else if !items[0].Str? then (None, items)
    else
      var t := TranslateEntry(items[1]);
      var (d, rest) := TranslatePairs(items[2..], SetObject(dict, items[0].text, t.Value()));
      (d, [items[0], t.edited] + rest)
  }

  /** A dictionary keeps one value per key. */
  function SetObject(dict: seq<Entry>, key: string, value: Obj): (r: seq<Entry>) {
    if dict == [] then [Entry(key, value)]
    else if dict[0].key == key then [Entry(key, value)] + dict[1..]
    else [dict[0]] + SetObject(dict[1..], key, value)
  }

  /** What takes an object's place in the configuration. */
  function Decode(obj: Obj): (r: Obj) {
    TranslateEntry(obj).Value()
  }

  // ----- The encoding

  function Encode(obj: Obj): (r: Obj)
    decreases obj, 1
  {
    match obj
    case Str(text) => Str(if text == ">y" || text == ">n" then ">" + text else text)
    case Num(_) => obj
    case Bool(truth) => Str(if truth then ">y" else ">n")
    case Arr(items) => Arr([Arr([])] + EncodeItems(items))
    case Dict(entries) => Arr(EncodePairs(entries))
  }

  function EncodeItems(items: seq<Obj>): (r: seq<Obj>)
    ensures |r| == |items|
    decreases items, 0
  {
    if items == [] then [] else [Encode(items[0])] + EncodeItems(items[1..])
  }

  function EncodePairs(entries: seq<Entry>): (r: seq<Obj>)
    ensures |r| == 2 * |entries|
    decreases entries, 0
  {
    if entries == [] then []
    else
      [Str(entries[0].key), Encode(entries[0].value)] + EncodePairs(entries[1..])
  }

  predicate HasKey(entries: seq<Entry>, key: string) {
    exists i :: 0 <= i < |entries| && entries[i].key == key
  }

  /** No two entries have the same key. */
  predicate DistinctKeys(entries: seq<Entry>) {
    entries == [] || (!HasKey(entries[1..], entries[0].key) && DistinctKeys(entries[1..]))
  }

  /** What the encoding can say: no string that looks like an escape, no empty dictionary, distinct keys. */
  predicate Encodable(obj: Obj)
    decreases obj, 1
  {
    match obj
    case Str(text) => text != ">>y" && text != ">>n"
    case Arr(items) => AllEncodable(items)
    case Dict(entries) => entries != [] && DistinctKeys(entries) && AllValuesEncodable(entries)
    case _ => true
  }

  predicate AllEncodable(items: seq<Obj>)
    decreases items, 0
  {
    items == [] || (Encodable(items[0]) && AllEncodable(items[1..]))
  }

  predicate AllValuesEncodable(entries: seq<Entry>)
    decreases entries, 0
  {
    entries == [] || (Encodable(entries[0].value) && AllValuesEncodable(entries[1..]))
  }

  // ----- Dictionaries filled entry by entry

  function SetAll(dict: seq<Entry>, entries: seq<Entry>): (r: seq<Entry>)
    decreases |entries|
  {
    if entries == [] then dict else SetAll(SetObject(dict, entries[0].key, entries[0].value), entries[1..])
  }

  lemma {:induction false} SetNewKey(dict: seq<Entry>, key: string, value: Obj)
    ensures !HasKey(dict, key) ==> SetObject(dict, key, value) == dict + [Entry(key, value)]
    ensures |SetObject(dict, key, value)| == |dict| + if HasKey(dict, key) then 0 else 1
    ensures forall k :: HasKey(SetObject(dict, key, value), k) <==> HasKey(dict, k) || k == key
  {
    if dict != [] && dict[0].key != key {
      SetNewKey(dict[1..], key, value);
      var tail := SetObject(dict[1..], key, value);
      HasKeyCons(dict[0], dict[1..]);
      HasKeyCons(dict[0], tail);
      assert [dict[0]] + dict[1..] == dict;
    } else if dict != [] {
      HasKeyCons(dict[0], dict[1..]);
      HasKeyCons(Entry(key, value), dict[1..]);
      assert [dict[0]] + dict[1..] == dict;
    } else {
      HasKeyCons(Entry(key, value), []);
      assert [Entry(key, value)] + [] == [Entry(key, value)];
    }
  }

  lemma {:induction false} HasKeyCons(first: Entry, rest: seq<Entry>)
    ensures forall k :: HasKey([first] + rest, k) <==> first.key == k || HasKey(rest, k)
  {
    forall k ensures HasKey([first] + rest, k) <==> first.key == k || HasKey(rest, k) {
      var all := [first] + rest;
      if HasKey(rest, k) {
        var i :| 0 <= i < |rest| && rest[i].key == k;
        assert all[i + 1].key == k;
      }
      if first.key == k {
        assert all[0].key == k;
      }
      if HasKey(all, k) && first.key != k {
        var i :| 0 <= i < |all| && all[i].key == k;
        assert rest[i - 1].key == k;
      }
    }
  }

  /** Keys of `entries` are new to `dict`, and distinct. */
  predicate AllNew(dict: seq<Entry>, entries: seq<Entry>) {
    DistinctKeys(entries) && forall i :: 0 <= i < |entries| ==> !HasKey(dict, entries[i].key)
  }

  /** Filling in keeps all entries in order exactly when their keys are new and distinct; otherwise the dictionary
      comes out shorter. */
  lemma {:induction false} SetAllIff(dict: seq<Entry>, entries: seq<Entry>)
    ensures |SetAll(dict, entries)| <= |dict| + |entries|
    ensures AllNew(dict, entries) ==> SetAll(dict, entries) == dict + entries
    ensures !AllNew(dict, entries) ==> |SetAll(dict, entries)| < |dict| + |entries|
    decreases |entries|
  {
    if entries != [] {
      var Entry(k, v) := entries[0];
      var dict' := SetObject(dict, k, v);
      SetNewKey(dict, k, v);
      SetAllIff(dict', entries[1..]);
      if AllNew(dict, entries) {
        assert !HasKey(dict, entries[0].key);
        forall i | 0 <= i < |entries[1..]| ensures !HasKey(dict', entries[1..][i].key) {
          assert entries[1..][i] == entries[i + 1];
          assert !HasKey(entries[1..], k);
        }
        assert dict + [Entry(k, v)] + entries[1..] == dict + entries;
      } else if !HasKey(dict, k) && AllNew(dict', entries[1..]) {
        NewAfterAll(dict, entries);
      }
    }
  }

  lemma {:induction false} NewAfterAll(dict: seq<Entry>, entries: seq<Entry>)
    requires entries != [] && !HasKey(dict, entries[0].key)
    requires AllNew(SetObject(dict, entries[0].key, entries[0].value), entries[1..])
    ensures AllNew(dict, entries)
  {
    var Entry(k, v) := entries[0];
    SetNewKey(dict, k, v);
    var dict' := SetObject(dict, k, v);
    forall i | 0 <= i < |entries| ensures !HasKey(dict, entries[i].key) {
      if i > 0 {
        assert entries[i] == entries[1..][i - 1] && !HasKey(dict', entries[1..][i - 1].key);
      }
    }
  }

  // ----- Round trip

  /** The entries with their values sent through the encoding and back. */
  function Returned(entries: seq<Entry>): (r: seq<Entry>)
    ensures |r| == |entries|
    ensures forall i :: 0 <= i < |entries| ==> r[i] == Entry(entries[i].key, Decode(Encode(entries[i].value)))
  {
    seq(|entries|, i requires 0 <= i < |entries| => Entry(entries[i].key, Decode(Encode(entries[i].value))))
  }

  lemma {:induction false} PairsReturn(entries: seq<Entry>, dict: seq<Entry>)
    ensures TranslatePairs(EncodePairs(entries), dict).0 == Some(SetAll(dict, Returned(entries)))
    decreases |entries|
  {
    if entries != [] {
      var items := EncodePairs(entries);
      assert items[2..] == EncodePairs(entries[1..]);
      assert Returned(entries)[1..] == Returned(entries[1..]);
      var v := Decode(Encode(entries[0].value));
      PairsReturn(entries[1..], SetObject(dict, entries[0].key, v));
    }
  }

  lemma {:induction false} SameKeys(a: seq<Entry>, b: seq<Entry>)
    requires |a| == |b| && forall i :: 0 <= i < |a| ==> a[i].key == b[i].key
    ensures DistinctKeys(a) == DistinctKeys(b)
    decreases |a|
  {
    if a != [] {
      SameKeys(a[1..], b[1..]);
      assert HasKey(a[1..], a[0].key) == HasKey(b[1..], b[0].key) by {
        if HasKey(a[1..], a[0].key) {
          var i :| 0 <= i < |a[1..]| && a[1..][i].key == a[0].key;
          assert b[1..][i].key == b[0].key;
        }
        if HasKey(b[1..], b[0].key) {
          var i :| 0 <= i < |b[1..]| && b[1..][i].key == b[0].key;
          assert a[1..][i].key == a[0].key;
        }
      }
    }
  }

  /** Decoding undoes encoding for exactly the encodable trees. */
  lemma {:induction false} RoundTripIff(obj: Obj)
    ensures Decode(Encode(obj)) == obj <==> Encodable(obj)
    decreases obj, 1
  {
    match obj
    case Str(text) =>
      if text == ">y" || text == ">n" {
        assert (">" + text)[1..] == text;
      }
    case Arr(items) =>
      ItemsRoundTripIff(items);
      var coded := [Arr([])] + EncodeItems(items);
      assert coded[1..] == EncodeItems(items);
      assert TranslateArray(coded).Value() == Arr(TranslateItems(EncodeItems(items)));
    case Dict(entries) =>
      DictRoundTripIff(entries);
    case _ =>
  }

  lemma {:induction false} ItemsRoundTripIff(items: seq<Obj>)
    ensures TranslateItems(EncodeItems(items)) == items <==> AllEncodable(items)
    decreases items, 0
  {
    if items != [] {
      RoundTripIff(items[0]);
      ItemsRoundTripIff(items[1..]);
      var coded := EncodeItems(items);
      assert coded[1..] == EncodeItems(items[1..]);
      var back := TranslateItems(coded);
      assert back[0] == Decode(Encode(items[0])) && back[1..] == TranslateItems(EncodeItems(items[1..]));
      assert [items[0]] + items[1..] == items;
    }
  }

  lemma {:induction false} DictReturns(entries: seq<Entry>)
    requires entries != []
    ensures Decode(Encode(Dict(entries))) == Dict(SetAll([], Returned(entries)))
  {
    PairsReturn(entries, []);
    var coded := EncodePairs(entries);
    assert coded[0] == Str(entries[0].key);
    assert TranslateArray(coded).Value() == Dict(SetAll([], Returned(entries)));
  }

  /** A dictionary comes back as it was exactly when its keys are distinct and its values come back. */
  lemma {:induction false} FilledIff(entries: seq<Entry>, back: seq<Entry>)
    requires |back| == |entries| && forall i :: 0 <= i < |entries| ==> back[i].key == entries[i].key
    ensures SetAll([], back) == entries <==> DistinctKeys(entries) && back == entries
  {
    SetAllIff([], back);
    SameKeys(entries, back);
    assert forall k :: !HasKey([], k);
    assert AllNew([], back) == DistinctKeys(back);
    assert [] + back == back;
  }

  lemma {:induction false} DictRoundTripIff(entries: seq<Entry>)
    ensures Decode(Encode(Dict(entries))) == Dict(entries) <==> Encodable(Dict(entries))
    decreases entries, 1
  {
    ValuesRoundTripIff(entries);
    if entries != [] {
      DictReturns(entries);
      FilledIff(entries, Returned(entries));
    } else {
      assert EncodePairs(entries) == [];
      assert TranslateArray([]).Value() == Arr([]);
    }
  }

  lemma {:induction false} ValuesRoundTripIff(entries: seq<Entry>)
    ensures Returned(entries) == entries <==> AllValuesEncodable(entries)
    decreases entries, 0
  {
    if entries != [] {
      RoundTripIff(entries[0].value);
      ValuesRoundTripIff(entries[1..]);
      ReturnedCons(entries);
    }
  }

  lemma {:induction false} ReturnedCons(entries: seq<Entry>)
    requires entries != []
    ensures Returned(entries) == entries <==>
            Decode(Encode(entries[0].value)) == entries[0].value && Returned(entries[1..]) == entries[1..]
  {
    var back := Returned(entries);
    assert back[1..] == Returned(entries[1..]);
    assert [entries[0]] + entries[1..] == entries && [back[0]] + back[1..] == back;
  }

  // ----- Repeated keys

  function Lookup(dict: seq<Entry>, key: string): (r: Option<Obj>) {
    if dict == [] then None else if dict[0].key == key then Some(dict[0].value) else Lookup(dict[1..], key)
  }

  /** Setting a key makes its value the new one, also if it had one, and leaves the others alone. */
  lemma {:induction false} SetThenLookup(dict: seq<Entry>, key: string, value: Obj, other: string)
    ensures Lookup(SetObject(dict, key, value), other) == if other == key then Some(value) else Lookup(dict, other)
  {
    if dict != [] && dict[0].key != key {
      SetThenLookup(dict[1..], key, value, other);
      var tail := SetObject(dict[1..], key, value);
      assert ([dict[0]] + tail)[1..] == tail;
    } else if dict != [] {
      assert ([Entry(key, value)] + dict[1..])[1..] == dict[1..];
    } else {
      assert [Entry(key, value)][1..] == [];
    }
  }

  // ----- Arrays that encode nothing

  /** An empty array, and an odd number of items that no empty array leads, stay as they are. */
  lemma {:induction false} OddStays(items: seq<Obj>)
    requires items == [] || (items[0] != Arr([]) && |items| % 2 == 1)
    ensures Decode(Arr(items)) == Arr(items)
  {
    assert TranslateArray(items) == Translation(None, Arr(items));
  }

  /** So does an even number of them, if the first key is not a string. */
  lemma {:induction false} BadKeyStays(items: seq<Obj>)
    requires items != [] && items[0] != Arr([]) && |items| % 2 == 0 && !items[0].Str?
    ensures Decode(Arr(items)) == Arr(items)
  {
    assert TranslatePairs(items, []) == (None, items);
    assert TranslateArray(items) == Translation(None, Arr(items));
  }

  /** An array with its leading mark loses the mark, and each item is decoded in its place. */
  lemma {:induction false} ArrayDecodes(items: seq<Obj>, i: nat)
    requires i < |items|
    ensures Decode(Arr([Arr([])] + items)).Arr? && |Decode(Arr([Arr([])] + items)).items| == |items|
    ensures Decode(Arr([Arr([])] + items)).items[i] == Decode(items[i])
  {
    var marked := [Arr([])] + items;
    assert marked[1..] == items;
    assert TranslateArray(marked).Value() == Arr(TranslateItems(items));
    ItemAt(items, i);
  }

  // ----- The decoder itself, with its loops

  /** The item of an array at index `i`, translated. */
  lemma {:induction false} ItemAt(items: seq<Obj>, i: nat)
    requires i < |items|
    ensures TranslateItems(items)[i] == TranslateEntry(items[i]).Value()
  {
    if i > 0 {
      ItemAt(items[1..], i - 1);
    }
  }

  method RunTranslateEntry(obj: Obj) returns (result: Option<Obj>, edited: Obj)
    ensures Translation(result, edited) == TranslateEntry(obj)
    decreases obj, 1
  {
    result, edited := None, obj;
    if obj.Arr? {
      var items;
      result, items := RunTranslateArray(obj.items);
      edited := Arr(items);
    } else if obj.Str? {
      var sz := obj.text;
      if |sz| > 0 && sz[0] == '>' {
        if |sz| == 2 && sz[1] == 'y' {
          result := Some(Bool(true));
        } else if |sz| == 2 && sz[1] == 'n' {
          result := Some(Bool(false));
        } else if |sz| == 3 && sz[1] == '>' && (sz[2] == 'y' || sz[2] == 'n') {
          result := Some(Str(sz[1..]));
        }
      }
    }
  }

  method RunTranslateArray(items: seq<Obj>) returns (result: Option<Obj>, edited: seq<Obj>)
    ensures Translation(result, Arr(edited)) == TranslateArray(items)
    decreases items, 2
  {
    edited := items;
    if |items| == 0 {
      return None, edited;
    }
    if items[0].Arr? && |items[0].items| == 0 {
      edited := RunTranslateItems(items[1..]);
      return Some(Arr(edited)), edited;
    }
    if |items| % 2 == 1 {
      return None, edited;
    }
    var dict;
    dict, edited := RunTranslatePairs(items);
    result := if dict.Some? then Some(Dict(dict.value)) else None;
  }

  /** Edits each item of an array in place. */
  method RunTranslateItems(items: seq<Obj>) returns (edited: seq<Obj>)
    ensures edited == TranslateItems(items)
    decreases items, 1
  {
    edited := items;
    for i := 0 to |items|
      invariant |edited| == |items|
      invariant forall j :: 0 <= j < i ==> edited[j] == TranslateItems(items)[j]
      invariant forall j :: i <= j < |items| ==> edited[j] == items[j]
    {
      ItemAt(items, i);
      var result, e := RunTranslateEntry(items[i]);
      edited := edited[i := if result.Some? then result.value else e];
    }
  }

  /** Goes through keys and values two at a time, and gives up at a key that is not a string. */
  method RunTranslatePairs(items: seq<Obj>) returns (dict: Option<seq<Entry>>, edited: seq<Obj>)
    requires |items| % 2 == 0
    ensures (dict, edited) == TranslatePairs(items, [])
    decreases items, 1
  {
    edited := [];
    var d: seq<Entry> := [];
    var i := 0;
    PairsStart(items);
    while i < |items|
      invariant 0 <= i <= |items| && i % 2 == 0 && |edited| == i
      invariant ResumesAt(items, edited, i, d)
    {
      if !items[i].Str? {
        PairsGiveUp(items, edited, i, d);
        return None, edited + items[i..];
      }
      d, edited := RunTranslatePair(items, edited, i, d);
      i := i + 2;
    }
    dict := Some(d);
    PairsEnd(items, edited, d);
  }

  /** Translates the value of one pair, and enters it. */
  method RunTranslatePair(items: seq<Obj>, edited: seq<Obj>, i: nat, d: seq<Entry>)
    returns (d': seq<Entry>, edited': seq<Obj>)
    requires i + 1 < |items| && |items| % 2 == 0 && i % 2 == 0 && |edited| == i && items[i].Str?
    requires ResumesAt(items, edited, i, d)
    ensures |edited'| == i + 2 && ResumesAt(items, edited', i + 2, d')
    decreases items, 0
  {
    PairsStep(items, edited, i, d);
    var result, e := RunTranslateEntry(items[i + 1]);
    d' := SetObject(d, items[i].text, if result.Some? then result.value else e);
    edited' := edited + [items[i], e];
  }

  /** `rest` is what is left of translating the pairs of `items` once `edited` is done. */
  ghost predicate Resumes(items: seq<Obj>, edited: seq<Obj>, rest: (Option<seq<Entry>>, seq<Obj>))
    requires |items| % 2 == 0
  {
    TranslatePairs(items, []) == (rest.0, edited + rest.1)
  }

  /** The pairs from `i` on are left, with dictionary `d` so far. */
  ghost predicate ResumesAt(items: seq<Obj>, edited: seq<Obj>, i: nat, d: seq<Entry>)
    requires i <= |items| && |items| % 2 == 0 && i % 2 == 0
  {
    Resumes(items, edited, TranslatePairs(items[i..], d))
  }

  lemma {:induction false} PairsGiveUp(items: seq<Obj>, edited: seq<Obj>, i: nat, d: seq<Entry>)
    requires i + 1 < |items| && |items| % 2 == 0 && i % 2 == 0 && !items[i].Str?
    requires ResumesAt(items, edited, i, d)
    ensures TranslatePairs(items, []) == (None, edited + items[i..])
  {
    PairsStep(items, edited, i, d);
  }

  lemma {:induction false} PairsStart(items: seq<Obj>)
    requires |items| % 2 == 0
    ensures ResumesAt(items, [], 0, [])
  {
    assert items[0..] == items && [] + TranslatePairs(items, []).1 == TranslatePairs(items, []).1;
  }

  lemma {:induction false} PairsEnd(items: seq<Obj>, edited: seq<Obj>, d: seq<Entry>)
    requires |items| % 2 == 0 && ResumesAt(items, edited, |items|, d)
    ensures TranslatePairs(items, []) == (Some(d), edited)
  {
    assert items[|items|..] == [] && edited + [] == edited;
  }

  lemma {:induction false} PairsStep(items: seq<Obj>, edited: seq<Obj>, i: nat, d: seq<Entry>)
    requires i + 1 < |items| && |items| % 2 == 0 && i % 2 == 0
    requires Resumes(items, edited, TranslatePairs(items[i..], d))
    ensures if items[i].Str? then
              var t := TranslateEntry(items[i + 1]);
              ResumesAt(items, edited + [items[i], t.edited], i + 2, SetObject(d, items[i].text, t.Value()))
            else Resumes(items, edited, (None, items[i..]))
  {
    var tail := items[i..];
    assert tail[0] == items[i] && tail[1] == items[i + 1] && tail[2..] == items[i + 2..];
    if items[i].Str? {
      var t := TranslateEntry(items[i + 1]);
      var rest := TranslatePairs(items[i + 2..], SetObject(d, items[i].text, t.Value())).1;
      assert edited + ([items[i], t.edited] + rest) == edited + [items[i], t.edited] + rest;
    }
  }
}
