/**
 * Model discovery on the client (src/App.js): normalising catalog names,
 * choosing the best model by a fixed preference list, and re-selecting a
 * model when a fresh catalog no longer offers the current one.
 */
module ModelRegistry {

  import opened Options
  import opened Text

  /** Returned for an empty catalog. */
  const DefaultModel: string := "gemini-2.5-flash"

  /** Preferred models, best first. */
  const Preferences: seq<string> := ["gemini-2.5-flash", "gemini-2.0-flash"]

  /** The catalog with every name reduced to its last `/` segment. */
  function NormalizeAll(models: seq<string>): (names: seq<string>)
    ensures |names| == |models|
    ensures forall i :: 0 <= i < |models| ==> names[i] == LastSegment(models[i])
  {
    seq(|models|, i requires 0 <= i < |models| => LastSegment(models[i]))
  }

  /** The catalog offers `pref`: some entry is `pref` itself or a namespaced `.../pref`. */
  predicate Offers(models: seq<string>, pref: string): (r: bool)
    ensures pref in models ==> r
  {
    exists n :: n in models && (n == pref || EndsWith(n, "/" + pref))
  }

  /** The first preference in `prefs` the catalog offers; none when it offers none of them. */
  function FirstOffered(prefs: seq<string>, models: seq<string>): (r: Option<string>)
    ensures r.Some? ==> r.value in prefs && Offers(models, r.value)
    ensures r.None? ==> forall p :: p in prefs ==> !Offers(models, p)
    ensures forall i :: 0 <= i < |prefs| && Offers(models, prefs[i])
                        && (forall j :: 0 <= j < i ==> !Offers(models, prefs[j]))
                        ==> r == Some(prefs[i])
  {
    if prefs == [] then None
    else if Offers(models, prefs[0]) then Some(prefs[0])
    else
      var r := FirstOffered(prefs[1..], models);
      assert forall i :: 1 <= i < |prefs| ==> prefs[i] == prefs[1..][i - 1];
      r
  }

  /**
   * `pickBestModel`: the earliest preference the catalog offers; otherwise the
   * bare name of the first catalog entry; for an empty catalog the default.
   */
  function PickBestModel(models: seq<string>): (r: string)
    ensures Offers(models, Preferences[0]) ==> r == Preferences[0]
    ensures !Offers(models, Preferences[0]) && Offers(models, Preferences[1]) ==> r == Preferences[1]
    ensures !Offers(models, Preferences[0]) && !Offers(models, Preferences[1]) && models != []
            ==> r == LastSegment(models[0])
    ensures models == [] ==> r == DefaultModel
    ensures '/' !in r
    ensures models != [] ==> r in NormalizeAll(models)
  {
    match FirstOffered(Preferences, models)
    case Some(p) =>
      assert '/' !in p;
      OfferedIsNormalized(models, p);
      p
    case None =>
      if models != [] then LastSegment(models[0]) else DefaultModel
  }

  /** A preference the catalog offers (exactly or namespaced) is one of its normalised names. */
  lemma OfferedIsNormalized(models: seq<string>, pref: string)
    requires '/' !in pref
    requires Offers(models, pref)
    ensures pref in NormalizeAll(models)
  {
    var i :| 0 <= i < |models| && (models[i] == pref || EndsWith(models[i], "/" + pref));
    if models[i] != pref {
      LastSegmentOfNamespaced(models[i], pref);
    }
    assert NormalizeAll(models)[i] == pref;
  }

  /**
   * The selection after a catalog refresh: kept when the catalog offers it under
   * its bare name, otherwise replaced by `PickBestModel` unless that is empty.
   */
  function Reselect(selected: string, models: seq<string>): (r: string)
    ensures selected in NormalizeAll(models) ==> r == selected
    ensures r != selected ==> r == PickBestModel(models)
    ensures selected !in NormalizeAll(models) && PickBestModel(models) != "" ==> r == PickBestModel(models)
    ensures PickBestModel(models) == "" ==> r == selected
  {
    if selected in NormalizeAll(models) then selected
    else
      var best := PickBestModel(models);
      if best != "" && best != selected then best else selected
  }

  /**
   * After a refresh the selection is one of the catalog's bare names, or the
   * default for an empty catalog, except when the first entry's bare name is
   * empty: then the best model is falsy and an unoffered selection stays.
   */
  lemma ReselectIsOffered(selected: string, models: seq<string>)
    ensures Reselect(selected, models) in NormalizeAll(models)
            || (models == [] && Reselect(selected, models) == DefaultModel)
            || (models != [] && LastSegment(models[0]) == "" && Reselect(selected, models) == selected)
  {
    if selected !in NormalizeAll(models) && models != [] {
      var best := PickBestModel(models);
      if best == "" {
        assert best != Preferences[0] && best != Preferences[1];
      }
    }
  }

  /**
   * Preference order beats catalog order: a catalog listing namespaced 2.0 before
   * namespaced 2.5, under any namespace, still yields the bare `gemini-2.5-flash`.
   */
  lemma PreferenceBeatsCatalogOrder(namespace: string)
    ensures PickBestModel([namespace + ("/" + Preferences[1]), namespace + ("/" + Preferences[0])]) == Preferences[0]
  {
    var suffix := "/" + Preferences[0];
    var models := [namespace + ("/" + Preferences[1]), namespace + suffix];
    EndsWithAppend(namespace, suffix);
    assert Offers(models, Preferences[0]);
  }
}
