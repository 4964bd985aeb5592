/**
 * The description extractor: a fixed-priority heuristic that finds a
 * human-readable job description inside a job overview payload.
 *
 *   1. the working object is the payload itself when it is an object, the
 *      first object element when it is an array, and `{}` otherwise;
 *   2. the first preferred key holding a string that is not blank;
 *   3. else the first string value whose stripped length exceeds 40;
 *   4. else the first nested object holding a preferred key as in step 2;
 *   5. else the empty string.
 * Every text returned is stripped of surrounding whitespace.
 */
module Description {
  import opened Payload
  import opened Text

  const PREFERRED_KEYS: seq<string> := ["description", "job_description", "full_description"]

  /** Strings of more than this many characters (after stripping) count as a description. */
  const LONG_TEXT_MIN: nat := 40

  // ---------------------------------------------------------------------------
  // Step 1: the working object

  /** The entries of the first object in `items`, if any. */
  function FirstObject(items: seq<Json>): (r: Option<seq<(string, Json)>>)
    ensures r.Some? ==> Dict(r.value) in items
  {
    if items == [] then None
    else if items[0].Dict? then Some(items[0].entries)
    else FirstObject(items[1..])
  }

  /** FirstObject finds nothing exactly when no element is an object. */
  lemma {:induction false} FirstObjectNone(items: seq<Json>)
    ensures FirstObject(items).None? <==> forall i :: 0 <= i < |items| ==> !items[i].Dict?
  {
    if items != [] {
      FirstObjectNone(items[1..]);
      assert forall j :: 1 <= j < |items| ==> items[j] == items[1..][j - 1];
    }
  }

  /** The object FirstObject picks is the first object element. */
  lemma {:induction false} FirstObjectIsFirst(items: seq<Json>, i: nat)
    requires i < |items| && items[i].Dict?
    requires forall j :: 0 <= j < i ==> !items[j].Dict?
    ensures FirstObject(items) == Some(items[i].entries)
  {
    if i > 0 {
      FirstObjectIsFirst(items[1..], i - 1);
    }
  }

  /** The object the extractor inspects: the payload, its first object element, or `{}`. */
  function WorkingObject(p: Json): (ov: seq<(string, Json)>)
    ensures p.Dict? ==> ov == p.entries
    ensures !p.Dict? && !p.List? ==> ov == []
  {
    match p
    case Dict(entries) => entries
    case List(items) =>
      (match FirstObject(items)
       case Some(entries) => entries
       case None => [])
    case _ => []
  }

  // ---------------------------------------------------------------------------
  // Step 2: preferred keys

  /** The stripped text of a value that is a string which is not blank. */
  function NonBlankText(v: Option<Json>): (r: Option<string>)
    ensures r.Some? <==> v.Some? && v.value.Str? && !AllSpace(v.value.s)
    ensures r.Some? ==> r.value == Strip(v.value.s) && r.value != [] && IsStripped(r.value)
  {
    if v.Some? && v.value.Str? && Strip(v.value.s) != [] then Some(Strip(v.value.s)) else None
  }

  /** What the preferred-key test finds under `key` in `ov`. */
  function KeyText(ov: seq<(string, Json)>, key: string): Option<string>
  {
    NonBlankText(Get(ov, key))
  }

  /** The text of the first key of `keys` whose value in `ov` is a non-blank string. */
  function PreferredText(ov: seq<(string, Json)>, keys: seq<string>): (r: Option<string>)
    ensures r.Some? ==> r.value != [] && IsStripped(r.value)
  {
    if keys == [] then None
    else if KeyText(ov, keys[0]).Some? then KeyText(ov, keys[0])
    else PreferredText(ov, keys[1..])
  }

  /** The preferred-key search fails exactly when no key qualifies. */
  lemma {:induction false} PreferredTextNone(ov: seq<(string, Json)>, keys: seq<string>)
    ensures PreferredText(ov, keys).None? <==> forall i :: 0 <= i < |keys| ==> KeyText(ov, keys[i]).None?
  {
    if keys != [] {
      PreferredTextNone(ov, keys[1..]);
      assert forall j :: 1 <= j < |keys| ==> keys[j] == keys[1..][j - 1];
    }
  }

  /** PreferredText returns the text of the first key that has one. */
  lemma {:induction false} PreferredTextIsFirst(ov: seq<(string, Json)>, keys: seq<string>, i: nat)
    requires i < |keys| && KeyText(ov, keys[i]).Some?
    requires forall j :: 0 <= j < i ==> KeyText(ov, keys[j]).None?
    ensures PreferredText(ov, keys) == KeyText(ov, keys[i])
  {
    if i > 0 {
      PreferredTextIsFirst(ov, keys[1..], i - 1);
    }
  }

  // ---------------------------------------------------------------------------
  // Step 3: the first long string value

  /** The stripped text of `v` when it is a string longer than LONG_TEXT_MIN once stripped. */
  function LongText(v: Json): (r: Option<string>)
    ensures r.Some? <==> v.Str? && |Strip(v.s)| > LONG_TEXT_MIN
    ensures r.Some? ==> r.value == Strip(v.s)
  {
    if v.Str? && |Strip(v.s)| > LONG_TEXT_MIN then Some(Strip(v.s)) else None
  }

  /** The long text of the first value of `ov`, in entry order, that has one. */
  function FirstLongText(ov: seq<(string, Json)>): (r: Option<string>)
    ensures r.Some? ==> |r.value| > LONG_TEXT_MIN && IsStripped(r.value)
  {
    if ov == [] then None
    else if LongText(ov[0].1).Some? then LongText(ov[0].1)
    else FirstLongText(ov[1..])
  }

  /** The scan for a long string fails exactly when no value qualifies. */
  lemma {:induction false} FirstLongTextNone(ov: seq<(string, Json)>)
    ensures FirstLongText(ov).None? <==> forall i :: 0 <= i < |ov| ==> LongText(ov[i].1).None?
  {
    if ov != [] {
      FirstLongTextNone(ov[1..]);
      assert forall j :: 1 <= j < |ov| ==> ov[j] == ov[1..][j - 1];
    }
  }

  /** FirstLongText returns the text of the first long string value. */
  lemma {:induction false} FirstLongTextIsFirst(ov: seq<(string, Json)>, i: nat)
    requires i < |ov| && LongText(ov[i].1).Some?
    requires forall j :: 0 <= j < i ==> LongText(ov[j].1).None?
    ensures FirstLongText(ov) == LongText(ov[i].1)
  {
    if i > 0 {
      FirstLongTextIsFirst(ov[1..], i - 1);
    }
  }

  // ---------------------------------------------------------------------------
  // Step 4: preferred keys one level down

  /** The preferred-key text of `v` when it is an object; nothing deeper is looked at. */
  function NestedText(v: Json): (r: Option<string>)
    ensures r.Some? ==> v.Dict?
  {
    if v.Dict? then PreferredText(v.entries, PREFERRED_KEYS) else None
  }

  /** The nested text of the first value of `ov`, in entry order, that has one. */
  function FirstNestedText(ov: seq<(string, Json)>): (r: Option<string>)
    ensures r.Some? ==> r.value != [] && IsStripped(r.value)
  {
    if ov == [] then None
    else if NestedText(ov[0].1).Some? then NestedText(ov[0].1)
    else FirstNestedText(ov[1..])
  }

  /** The nested search fails exactly when no value is an object with a qualifying preferred key. */
  lemma {:induction false} FirstNestedTextNone(ov: seq<(string, Json)>)
    ensures FirstNestedText(ov).None? <==> forall i :: 0 <= i < |ov| ==> NestedText(ov[i].1).None?
  {
    if ov != [] {
      FirstNestedTextNone(ov[1..]);
      assert forall j :: 1 <= j < |ov| ==> ov[j] == ov[1..][j - 1];
    }
  }

  /** FirstNestedText returns the text of the first nested object that has one. */
  lemma {:induction false} FirstNestedTextIsFirst(ov: seq<(string, Json)>, i: nat)
    requires i < |ov| && NestedText(ov[i].1).Some?
    requires forall j :: 0 <= j < i ==> NestedText(ov[j].1).None?
    ensures FirstNestedText(ov) == NestedText(ov[i].1)
  {
    if i > 0 {
      assert NestedText(ov[0].1).None?;
      assert FirstNestedText(ov) == FirstNestedText(ov[1..]);
      forall j | 0 <= j < i - 1 ensures NestedText(ov[1..][j].1).None? {
        assert ov[1..][j] == ov[j + 1];
      }
      FirstNestedTextIsFirst(ov[1..], i - 1);
    }
  }

  // ---------------------------------------------------------------------------
  // The extractor

  /** Steps 2 to 5 on a working object. */
  function DescriptionOf(ov: seq<(string, Json)>): (r: string)
    ensures IsStripped(r)
  {
    match PreferredText(ov, PREFERRED_KEYS)
    case Some(t) => t
    case None =>
      match FirstLongText(ov)
      case Some(t) => t
      case None =>
        match FirstNestedText(ov)
        case Some(t) => t
        case None => ""
  }

  /** `_extract_description`: never fails; "" when nothing qualifies. */
  function ExtractDescription(p: Json): (r: string)
    ensures IsStripped(r)
  {
    DescriptionOf(WorkingObject(p))
  }

  // ---------------------------------------------------------------------------
  // The priority order, step by step

  /**
   * When the i-th preferred key holds a non-blank string and no earlier preferred key
   * does, the result is that string stripped, whatever the other keys hold.
   */
  lemma PreferredKeyWins(p: Json, i: nat, s: string)
    requires i < |PREFERRED_KEYS|
    requires Get(WorkingObject(p), PREFERRED_KEYS[i]) == Some(Str(s)) && !AllSpace(s)
    requires forall j :: 0 <= j < i ==> KeyText(WorkingObject(p), PREFERRED_KEYS[j]).None?
    ensures ExtractDescription(p) == Strip(s)
  {
    PreferredTextIsFirst(WorkingObject(p), PREFERRED_KEYS, i);
  }

  /**
   * With no preferred key usable, the result is the first string value (in entry
   * order) whose stripped length exceeds 40, stripped.
   */
  lemma LongStringWins(p: Json, i: nat, s: string)
    requires forall k :: 0 <= k < |PREFERRED_KEYS| ==> KeyText(WorkingObject(p), PREFERRED_KEYS[k]).None?
    requires i < |WorkingObject(p)| && WorkingObject(p)[i].1 == Str(s) && |Strip(s)| > LONG_TEXT_MIN
    requires forall j :: 0 <= j < i ==> LongText(WorkingObject(p)[j].1).None?
    ensures ExtractDescription(p) == Strip(s)
  {
    PreferredTextNone(WorkingObject(p), PREFERRED_KEYS);
    FirstLongTextIsFirst(WorkingObject(p), i);
  }

  /**
   * With neither of the first two steps succeeding, the result is the preferred-key
   * text of the first nested object that has one.
   */
  lemma NestedObjectWins(p: Json, i: nat, t: string)
    requires forall k :: 0 <= k < |PREFERRED_KEYS| ==> KeyText(WorkingObject(p), PREFERRED_KEYS[k]).None?
    requires forall k :: 0 <= k < |WorkingObject(p)| ==> LongText(WorkingObject(p)[k].1).None?
    requires i < |WorkingObject(p)| && WorkingObject(p)[i].1.Dict?
    requires PreferredText(WorkingObject(p)[i].1.entries, PREFERRED_KEYS) == Some(t)
    requires forall j :: 0 <= j < i ==> NestedText(WorkingObject(p)[j].1).None?
    ensures ExtractDescription(p) == t
  {
    var ov := WorkingObject(p);
    PreferredTextNone(ov, PREFERRED_KEYS);
    FirstLongTextNone(ov);
    FirstNestedTextIsFirst(ov, i);
    assert FirstNestedText(ov) == Some(t);
  }

  /** When no step finds anything, the result is the empty string. */
  lemma NothingFound(p: Json)
    requires forall k :: 0 <= k < |PREFERRED_KEYS| ==> KeyText(WorkingObject(p), PREFERRED_KEYS[k]).None?
    requires forall k :: 0 <= k < |WorkingObject(p)| ==> LongText(WorkingObject(p)[k].1).None?
    requires forall k :: 0 <= k < |WorkingObject(p)| ==> NestedText(WorkingObject(p)[k].1).None?
    ensures ExtractDescription(p) == ""
  {
    PreferredTextNone(WorkingObject(p), PREFERRED_KEYS);
    FirstLongTextNone(WorkingObject(p));
    FirstNestedTextNone(WorkingObject(p));
  }

  // ---------------------------------------------------------------------------
  // Step 1 in isolation

  /** For an array payload only its first object element is used; earlier non-objects are skipped. */
  lemma FirstObjectElementUsed(items: seq<Json>, i: nat)
    requires i < |items| && items[i].Dict?
    requires forall j :: 0 <= j < i ==> !items[j].Dict?
    ensures ExtractDescription(List(items)) == ExtractDescription(items[i])
  {
    FirstObjectIsFirst(items, i);
  }

  /** A payload that is neither an object nor an array holding one gives "". */
  lemma NoObjectGivesEmpty(p: Json)
    requires !p.Dict?
    requires p.List? ==> forall j :: 0 <= j < |p.items| ==> !p.items[j].Dict?
    ensures ExtractDescription(p) == ""
  {
    if p.List? {
      FirstObjectNone(p.items);
    }
    assert WorkingObject(p) == [];
    NothingFound(p);
  }

  /** A list whose only object holds one non-preferred string longer than 40 characters yields it. */
  lemma ListWithLongValue(key: string, s: string)
    requires key !in PREFERRED_KEYS
    requires |s| > LONG_TEXT_MIN && IsStripped(s)
    ensures ExtractDescription(List([Null, Dict([(key, Str(s))])])) == s
  {
    StripStripped(s);
    var ov := [(key, Str(s))];
    var items := [Null, Dict(ov)];
    FirstObjectIsFirst(items, 1);
    assert WorkingObject(List(items)) == ov;
    forall k | 0 <= k < |PREFERRED_KEYS|
      ensures KeyText(ov, PREFERRED_KEYS[k]).None?
    {
      assert PREFERRED_KEYS[k] in PREFERRED_KEYS;
      assert Get(ov, PREFERRED_KEYS[k]).None?;
    }
    LongStringWins(List(items), 0, s);
  }

  // ---------------------------------------------------------------------------
  // Nothing below the second level is consulted

  /** Keep a value only if it is a string. */
  function Leaf(v: Json): Json
  {
    if v.Str? then v else Null
  }

  /** The entries of a nested object with everything but its strings blanked out. */
  function LeafEntries(e: seq<(string, Json)>): (r: seq<(string, Json)>)
    ensures |r| == |e|
    ensures forall i :: 0 <= i < |e| ==> r[i] == (e[i].0, Leaf(e[i].1))
  {
    if e == [] then [] else [(e[0].0, Leaf(e[0].1))] + LeafEntries(e[1..])
  }

  /** A value of the working object with everything deeper than one level below it blanked out. */
  function Shallow(v: Json): Json
  {
    match v
    case Str(_) => v
    case Dict(inner) => Dict(LeafEntries(inner))
    case _ => Null
  }

  /** The working object with everything the extractor does not consult blanked out. */
  function ShallowEntries(ov: seq<(string, Json)>): (r: seq<(string, Json)>)
    ensures |r| == |ov|
    ensures forall i :: 0 <= i < |ov| ==> r[i] == (ov[i].0, Shallow(ov[i].1))
  {
    if ov == [] then [] else [(ov[0].0, Shallow(ov[0].1))] + ShallowEntries(ov[1..])
  }

  /** Changing values, but not keys, changes the preferred-key text only through the values' texts. */
  lemma {:induction false} KeyTextOfMapped(e: seq<(string, Json)>, e': seq<(string, Json)>, key: string)
    requires |e'| == |e|
    requires forall i :: 0 <= i < |e| ==> e'[i].0 == e[i].0 &&
                                          NonBlankText(Some(e'[i].1)) == NonBlankText(Some(e[i].1))
    ensures KeyText(e', key) == KeyText(e, key)
  {
    if e != [] && e[0].0 != key {
      KeyTextOfMapped(e[1..], e'[1..], key);
    }
  }

  /** The preferred-key search depends only on what the key tests see. */
  lemma {:induction false} PreferredTextOfSame(e: seq<(string, Json)>, e': seq<(string, Json)>, keys: seq<string>)
    requires forall k :: k in keys ==> KeyText(e', k) == KeyText(e, k)
    ensures PreferredText(e', keys) == PreferredText(e, keys)
  {
    if keys != [] {
      PreferredTextOfSame(e, e', keys[1..]);
    }
  }

  lemma {:induction false} PreferredTextOfShallow(e: seq<(string, Json)>, keys: seq<string>)
    ensures PreferredText(ShallowEntries(e), keys) == PreferredText(e, keys)
  {
    forall k | k in keys ensures KeyText(ShallowEntries(e), k) == KeyText(e, k) {
      KeyTextOfMapped(e, ShallowEntries(e), k);
    }
    PreferredTextOfSame(e, ShallowEntries(e), keys);
  }

  lemma NestedTextOfShallow(v: Json)
    ensures NestedText(Shallow(v)) == NestedText(v)
  {
    if v.Dict? {
      var inner := v.entries;
      forall k | k in PREFERRED_KEYS ensures KeyText(LeafEntries(inner), k) == KeyText(inner, k) {
        KeyTextOfMapped(inner, LeafEntries(inner), k);
      }
      PreferredTextOfSame(inner, LeafEntries(inner), PREFERRED_KEYS);
    }
  }

  lemma {:induction false} FirstLongTextOfShallow(ov: seq<(string, Json)>)
    ensures FirstLongText(ShallowEntries(ov)) == FirstLongText(ov)
  {
    if ov != [] {
      assert ShallowEntries(ov)[1..] == ShallowEntries(ov[1..]);
      FirstLongTextOfShallow(ov[1..]);
    }
  }

  lemma {:induction false} FirstNestedTextOfShallow(ov: seq<(string, Json)>)
    ensures FirstNestedText(ShallowEntries(ov)) == FirstNestedText(ov)
  {
    if ov != [] {
      assert ShallowEntries(ov)[1..] == ShallowEntries(ov[1..]);
      NestedTextOfShallow(ov[0].1);
      FirstNestedTextOfShallow(ov[1..]);
    }
  }

  /**
   * Only the strings of the working object and the strings of its directly nested
   * objects decide the description: blanking out everything else (arrays, numbers,
   * objects nested two or more levels down) leaves the result unchanged.
   */
  lemma DeeperNestingIgnored(ov: seq<(string, Json)>)
    ensures DescriptionOf(ShallowEntries(ov)) == DescriptionOf(ov)
  {
    PreferredTextOfShallow(ov, PREFERRED_KEYS);
    FirstLongTextOfShallow(ov);
    FirstNestedTextOfShallow(ov);
  }
}
