/**
 * The asset resolver: a logical file name is looked up under a fixed, ordered
 * list of classpath prefixes and the first path that exists wins. Which paths
 * exist on the classpath is an input (`existing`), since the lookup itself is a
 * call into the class loader.
 */
module Resources {
  import opened Wrappers

  /** The classpath search bases, most specific first. */
  const SearchBases: seq<string> := ["/countinggame/resources/", "/countinggame/", "/resources/", "/"]

  /** A decoded picture; `source` is the classpath path it was loaded from. */
  datatype Image = Image(source: string)

  /** `bases[k] + name` exists and no earlier base yields an existing path. */
  ghost predicate FirstMatchAt(existing: set<string>, bases: seq<string>, name: string, k: int) {
    && 0 <= k < |bases|
    && bases[k] + name in existing
    && forall j :: 0 <= j < k ==> bases[j] + name !in existing
  }

  /** Ordered first-match search of `name` under `bases`. */
  function Resolve(existing: set<string>, bases: seq<string>, name: string): (r: Option<string>)
    ensures r.None? <==> forall i :: 0 <= i < |bases| ==> bases[i] + name !in existing
    ensures r.Some? ==> exists k :: FirstMatchAt(existing, bases, name, k) && r.value == bases[k] + name
    decreases |bases|
  {
    if |bases| == 0 then None
    else if bases[0] + name in existing then Some(bases[0] + name)
    else
      var r := Resolve(existing, bases[1..], name);
      assert forall i :: 1 <= i < |bases| ==> bases[i] == bases[1..][i - 1];
      FirstMatchShift(existing, bases, name, r);
      r
  }

  /** A first match in the tail of `bases` is a first match in `bases` when the head does not match. */
  lemma FirstMatchShift(existing: set<string>, bases: seq<string>, name: string, r: Option<string>)
    requires |bases| > 0 && bases[0] + name !in existing
    requires r.Some? ==> exists k :: FirstMatchAt(existing, bases[1..], name, k) && r.value == bases[1..][k] + name
    ensures r.Some? ==> exists k :: FirstMatchAt(existing, bases, name, k) && r.value == bases[k] + name
  {
    if r.Some? {
      var k :| FirstMatchAt(existing, bases[1..], name, k) && r.value == bases[1..][k] + name;
      assert forall j :: 1 <= j < |bases| ==> bases[j] == bases[1..][j - 1];
      assert FirstMatchAt(existing, bases, name, k + 1);
    }
  }

  /** The resolver over the game's own search bases: the four prefixes are tried in order. */
  function FindOnClasspath(existing: set<string>, fileName: string): (r: Option<string>)
    ensures r == (if "/countinggame/resources/" + fileName in existing then Some("/countinggame/resources/" + fileName)
                  else if "/countinggame/" + fileName in existing then Some("/countinggame/" + fileName)
                  else if "/resources/" + fileName in existing then Some("/resources/" + fileName)
                  else if "/" + fileName in existing then Some("/" + fileName)
                  else None)
  {
    assert SearchBases[1..][1..][1..][1..] == [];
    Resolve(existing, SearchBases, fileName)
  }

  /** The search as `CountingGame.findOnClasspath` writes it: a loop over the bases with an early return. */
  method SearchClasspath(existing: set<string>, fileName: string) returns (r: Option<string>)
    ensures r == FindOnClasspath(existing, fileName)
    ensures r.None? <==> forall i :: 0 <= i < |SearchBases| ==> SearchBases[i] + fileName !in existing
    ensures r.Some? ==> exists k :: FirstMatchAt(existing, SearchBases, fileName, k) && r.value == SearchBases[k] + fileName
  {
    var i := 0;
    while i < |SearchBases|
      invariant 0 <= i <= |SearchBases|
      invariant forall j :: 0 <= j < i ==> SearchBases[j] + fileName !in existing
      invariant Resolve(existing, SearchBases, fileName) == Resolve(existing, SearchBases[i..], fileName)
    {
      var url := SearchBases[i] + fileName;
      if url in existing {
        assert FirstMatchAt(existing, SearchBases, fileName, i);
        return Some(url);
      }
      assert SearchBases[i..][1..] == SearchBases[i + 1..];
      i := i + 1;
    }
    return None;
  }

  /** Loads an image through the resolver; no image exactly when the name does not resolve. */
  function LoadImage(existing: set<string>, fileName: string): (r: Option<Image>)
    ensures r.None? <==> FindOnClasspath(existing, fileName).None?
    ensures r.Some? ==> r.value.source == FindOnClasspath(existing, fileName).value
  {
    match FindOnClasspath(existing, fileName)
    case None => None
    case Some(url) => Some(Image(url))
  }

  /** At most one position can be the first match. */
  lemma FirstMatchUnique(existing: set<string>, bases: seq<string>, name: string, k1: int, k2: int)
    requires FirstMatchAt(existing, bases, name, k1)
    requires FirstMatchAt(existing, bases, name, k2)
    ensures k1 == k2
  {
  }

  /** Priority: whenever the name exists under base `i`, the answer comes from base `i` or an earlier one. */
  lemma ResolvePrefersEarlier(existing: set<string>, bases: seq<string>, name: string, i: int)
    requires 0 <= i < |bases|
    requires bases[i] + name in existing
    ensures Resolve(existing, bases, name).Some?
    ensures exists k :: 0 <= k <= i && FirstMatchAt(existing, bases, name, k)
                        && Resolve(existing, bases, name) == Some(bases[k] + name)
  {
    var r := Resolve(existing, bases, name);
    var k :| FirstMatchAt(existing, bases, name, k) && r.value == bases[k] + name;
    assert k <= i;
  }

  /** A name present under both "/countinggame/" and "/resources/" resolves to the "/countinggame/" copy. */
  lemma SecondBaseBeatsThird(existing: set<string>, fileName: string)
    requires "/countinggame/" + fileName in existing
    requires "/resources/" + fileName in existing
    requires "/countinggame/resources/" + fileName !in existing
    ensures FindOnClasspath(existing, fileName) == Some("/countinggame/" + fileName)
  {
  }
}
