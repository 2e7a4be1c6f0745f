/**
 * The browser client of `App.js`: the factory editor's validity rule, the
 * rule that disables its save button, and the list of factories the page
 * keeps up to date from the server's broadcasts.
 */
module App {
  import opened Python
  import FlaskApp

  /** A factory as the server broadcasts it. */
  datatype Factory = Factory(id: int, name: string, minValue: int, maxValue: int, numbers: seq<int>)

  /** The editor's state: the edited fields, whether anything was edited
    * yet, and the validity last computed. */
  datatype EditorState = EditorState(name: string, minValue: int, maxValue: int, changed: bool, happy: bool)

  /** `EditFactoryElem.isHappy(state)` */
  predicate IsHappy(name: string, minValue: int, maxValue: int)
  {
    |name| > 0 && |name| < 256 && minValue > 0 && minValue < maxValue && maxValue <= 1000
  }

  /** What the client accepts the server accepts as well. */
  lemma IsHappyServerAccepts(name: string, minValue: int, maxValue: int)
    requires IsHappy(name, minValue, maxValue)
    ensures !FlaskApp.ComplainAboutFactoryParams(PyStr(name), PyInt(minValue), PyInt(maxValue))
  {
  }

  /** The converse fails: the server takes an empty name and a lower bound of
    * 0, which the client refuses. */
  lemma ServerAcceptsMoreThanClient()
    ensures !FlaskApp.ComplainAboutFactoryParams(PyStr(""), PyInt(0), PyInt(5)) && !IsHappy("", 0, 5)
  {
  }

  /** The editor opened on factory `f`: unchanged, validity computed. */
  function OpenEditor(f: Factory): (s: EditorState)
    ensures s.name == f.name && s.minValue == f.minValue && s.maxValue == f.maxValue
    ensures !s.changed && s.happy == IsHappy(f.name, f.minValue, f.maxValue)
  {
    EditorState(f.name, f.minValue, f.maxValue, false, IsHappy(f.name, f.minValue, f.maxValue))
  }

  /** `componentDidUpdate`: validity recomputed from the current fields. */
  function Refresh(s: EditorState): (r: EditorState)
    ensures r.happy == IsHappy(s.name, s.minValue, s.maxValue)
    ensures r.(happy := s.happy) == s
  {
    s.(happy := IsHappy(s.name, s.minValue, s.maxValue))
  }

  /** `setName`, `setMinValue` and `setMaxValue`: a field and `changed`. */
  function SetName(s: EditorState, v: string): (r: EditorState)
    ensures r.changed && r.name == v && r.(name := s.name, changed := s.changed) == s
  {
    s.(name := v, changed := true)
  }

  function SetMinValue(s: EditorState, v: int): (r: EditorState)
    ensures r.changed && r.minValue == v && r.(minValue := s.minValue, changed := s.changed) == s
  {
    s.(minValue := v, changed := true)
  }

  function SetMaxValue(s: EditorState, v: int): (r: EditorState)
    ensures r.changed && r.maxValue == v && r.(maxValue := s.maxValue, changed := s.changed) == s
  {
    s.(maxValue := v, changed := true)
  }

  /** `save_disabled = !f.happy || !f.changed`: with validity up to date,
    * save is enabled only for edited, valid fields. */
  function SaveDisabled(s: EditorState): (r: bool)
    ensures !r <==> s.happy && s.changed
    ensures s.happy == IsHappy(s.name, s.minValue, s.maxValue) ==>
              (!r <==> s.changed && IsHappy(s.name, s.minValue, s.maxValue))
  {
    !s.happy || !s.changed
  }

  /** A freshly opened editor cannot save; once edited and refreshed, save is
    * enabled exactly for valid fields, and then the server accepts them. */
  lemma SaveRules(f: Factory, s: EditorState)
    ensures SaveDisabled(OpenEditor(f))
    ensures s.changed ==> (SaveDisabled(Refresh(s)) <==> !IsHappy(s.name, s.minValue, s.maxValue))
    ensures !SaveDisabled(Refresh(s)) ==>
              !FlaskApp.ComplainAboutFactoryParams(PyStr(s.name), PyInt(s.minValue), PyInt(s.maxValue))
  {
    if !SaveDisabled(Refresh(s)) {
      IsHappyServerAccepts(s.name, s.minValue, s.maxValue);
    }
  }

  // ---------------------------------------------------------------------
  // The factory list

  /** `factories.filter(f => f.id !== id)` */
  function RemoveId(s: seq<Factory>, id: int): (r: seq<Factory>)
    ensures |r| <= |s|
    ensures forall f :: f in r <==> f in s && f.id != id
    ensures (forall f <- s :: f.id != id) ==> r == s
  {
    if s == [] then []
    else (if s[0].id != id then [s[0]] else []) + RemoveId(s[1..], id)
  }

  /** Filtering distributes over concatenation, so the kept factories stay
    * in their original order. */
  lemma {:induction false} RemoveIdAppend(a: seq<Factory>, b: seq<Factory>, id: int)
    ensures RemoveId(a + b, id) == RemoveId(a, id) + RemoveId(b, id)
  {
    if a == [] {
      assert a + b == b;
    } else {
      assert (a + b)[0] == a[0] && (a + b)[1..] == a[1..] + b;
      RemoveIdAppend(a[1..], b, id);
    }
  }

  /** `factories.findIndex(f => f.id === id)`: the first position holding
    * that id, or -1. */
  function FindIndex(s: seq<Factory>, id: int): (r: int)
    ensures -1 <= r < |s|
    ensures r == -1 <==> forall f <- s :: f.id != id
    ensures r >= 0 ==> s[r].id == id && forall j :: 0 <= j < r ==> s[j].id != id
  {
    if s == [] then -1
    else if s[0].id == id then 0
    else
      var k := FindIndex(s[1..], id);
      if k == -1 then -1 else k + 1
  }

  /** The list after the `factory_updated` broadcast of `f`. */
  function ReplaceById(s: seq<Factory>, f: Factory): seq<Factory>
  {
    var idx := FindIndex(s, f.id);
    if idx != -1 then s[idx := f] else s
  }

  /** Only the first entry with `f`'s id is replaced; the length and every
    * other entry stay; an unknown id leaves the list as it was; replaying
    * the broadcast changes nothing more. */
  lemma ReplaceByIdSpec(s: seq<Factory>, f: Factory)
    ensures |ReplaceById(s, f)| == |s|
    ensures (forall g <- s :: g.id != f.id) ==> ReplaceById(s, f) == s
    ensures (exists g <- s :: g.id == f.id) ==>
              var k := FindIndex(s, f.id);
              && ReplaceById(s, f)[k] == f
              && (forall j :: 0 <= j < |s| && j != k ==> ReplaceById(s, f)[j] == s[j])
              && (forall j :: 0 <= j < k ==> s[j].id != f.id)
    ensures ReplaceById(ReplaceById(s, f), f) == ReplaceById(s, f)
  {
    var k := FindIndex(s, f.id);
    if k != -1 {
      var t := s[k := f];
      var k' := FindIndex(t, f.id);
      assert t[k].id == f.id;
      assert forall j :: 0 <= j < k ==> t[j].id != f.id;
      assert k' == k;
    }
  }

  /** A new factory whose id the list does not hold can be removed again by
    * its `factory_deleted` broadcast, restoring the list. */
  lemma NewThenDeleted(s: seq<Factory>, f: Factory)
    requires forall g <- s :: g.id != f.id
    ensures RemoveId(s + [f], f.id) == s
  {
    RemoveIdAppend(s, [f], f.id);
    assert RemoveId([f], f.id) == [];
  }

  /** The page's factory list, updated by the socket handlers. */
  class FactoryList {
    var factories: seq<Factory>

    constructor ()
      ensures factories == []
    {
      factories := [];
    }

    /** The `factories` message: the server's whole list. */
    method OnFactories(list: seq<Factory>)
      modifies this
      ensures factories == list
    {
      factories := list;
    }

    /** The `new_factory` broadcast: appended at the end. */
    method OnNewFactory(f: Factory)
      modifies this
      ensures factories == old(factories) + [f]
      ensures |factories| == |old(factories)| + 1 && factories[..|old(factories)|] == old(factories)
    {
      var copy := factories;
      copy := copy + [f];
      factories := copy;
    }

    /** The `factory_deleted` broadcast: every factory with that id goes. */
    method OnFactoryDeleted(deadId: int)
      modifies this
      ensures factories == RemoveId(old(factories), deadId)
    {
      factories := RemoveId(factories, deadId);
    }

    /** The `factory_updated` broadcast: the first factory with the same id
      * is replaced. */
    method OnFactoryUpdated(updated: Factory)
      modifies this
      ensures factories == ReplaceById(old(factories), updated)
    {
      var copy := factories;
      var idx := FindIndex(copy, updated.id);
      if idx != -1 {
        copy := copy[idx := updated];
      }
      factories := copy;
    }
  }
}
