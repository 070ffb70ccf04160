/** Choosing the image of a boot volume by labels (internal/service/cloud/image.go). */
module Images {
  import opened Base

  datatype Label = Label(resourceType: string, resourceID: string, key: string, value: string)

  datatype Image = Image(name: string, location: string, created: int)

  type Labels = map<string, string>

  // ---- labels per image ----

  function WithLabel(m: map<string, Labels>, l: Label): map<string, Labels> {
    if l.resourceType != "image" then m
    else m[l.resourceID := (if l.resourceID in m then m[l.resourceID] else map[])[l.key := l.value]]
  }

  /** The labels of each image; a later label overrides an earlier one with the same key. */
  function LabelMap(labels: seq<Label>): map<string, Labels> {
    if labels == [] then map[] else WithLabel(LabelMap(labels[..|labels| - 1]), labels[|labels| - 1])
  }

  /** The last label of the list for this image and key decides. */
  ghost predicate LastLabel(labels: seq<Label>, id: string, key: string, i: int) {
    && 0 <= i < |labels| && LabelFor(labels[i], id, key)
    && forall j | i < j < |labels| :: !LabelFor(labels[j], id, key)
  }

  predicate LabelFor(l: Label, id: string, key: string) {
    l.resourceType == "image" && l.resourceID == id && l.key == key
  }

  lemma LastLabelOfFront(labels: seq<Label>, id: string, key: string, i: int)
    requires labels != []
    ensures LastLabel(labels, id, key, i) <==>
      if LabelFor(labels[|labels| - 1], id, key) then i == |labels| - 1
      else LastLabel(labels[..|labels| - 1], id, key, i)
  {
  }

  predicate Says(m: map<string, Labels>, id: string, key: string) {
    id in m && key in m[id]
  }

  /** One more label changes what the map says of its own image and key, and nothing else. */
  lemma WithLabelSays(m: map<string, Labels>, l: Label, id: string, key: string)
    ensures Says(WithLabel(m, l), id, key) <==> LabelFor(l, id, key) || Says(m, id, key)
    ensures LabelFor(l, id, key) ==> WithLabel(m, l)[id][key] == l.value
    ensures !LabelFor(l, id, key) && Says(m, id, key) ==> WithLabel(m, l)[id][key] == m[id][key]
  {
  }

  /** What the map says is what the last label says, and it says nothing else. */
  lemma {:induction false} LabelMapIsLastLabel(labels: seq<Label>, id: string, key: string)
    ensures Says(LabelMap(labels), id, key) <==> exists i :: LastLabel(labels, id, key, i)
    ensures forall i :: LastLabel(labels, id, key, i) ==>
      Says(LabelMap(labels), id, key) && LabelMap(labels)[id][key] == labels[i].value
  {
    if labels != [] {
      var n := |labels| - 1;
      LabelMapIsLastLabel(labels[..n], id, key);
      WithLabelSays(LabelMap(labels[..n]), labels[n], id, key);
      forall i ensures LastLabel(labels, id, key, i) <==>
        if LabelFor(labels[n], id, key) then i == n else LastLabel(labels[..n], id, key, i)
      {
        LastLabelOfFront(labels, id, key, i);
      }
      if LabelFor(labels[n], id, key) {
        assert LastLabel(labels, id, key, n);
      } else if i :| LastLabel(labels[..n], id, key, i) {
        assert LastLabel(labels, id, key, i);
      }
    }
  }

  predicate Contains(a: Labels, b: Labels) {
    forall k | k in b :: k in a && a[k] == b[k]
  }

  /** mapContains; the keys come in any order. */
  method MapContains(a: Labels, b: Labels) returns (r: bool)
    ensures r == Contains(a, b)
  {
    var rest := b.Keys;
    while rest != {}
      invariant rest <= b.Keys
      invariant forall k | k in b && k !in rest :: k in a && a[k] == b[k]
      decreases |rest|
    {
      var k :| k in rest;
      if k !in a || a[k] != b[k] { return false; }
      rest := rest - {k};
    }
    return true;
  }

  // ---- the candidates ----

  predicate Selected(labels: seq<Label>, selector: Labels, id: string) {
    id in LabelMap(labels) && Contains(LabelMap(labels)[id], selector)
  }

  /** The images with the labels, in the location; the API knows `catalog` and fails for all others. */
  predicate Candidate(labels: seq<Label>, selector: Labels, location: string, catalog: map<string, Image>, id: string) {
    Selected(labels, selector, id) && id in catalog && catalog[id].location == location
  }

  predicate NoRepeats(ids: seq<string>) {
    forall i, j | 0 <= i < j < |ids| :: ids[i] != ids[j]
  }

  /** lookupImagesBySelector; the result is the same set for every order of the map. */
  method LookupBySelector(labels: seq<Label>, selector: Labels, location: string, catalog: map<string, Image>)
    returns (failed: bool, images: seq<string>)
    ensures failed <==> exists id :: Selected(labels, selector, id) && id !in catalog
    ensures !failed ==> NoRepeats(images)
    ensures !failed ==> forall id :: id in images <==> Candidate(labels, selector, location, catalog, id)
  {
    var labelMap: map<string, Labels> := map[];
    var i := 0;
    while i < |labels|
      invariant 0 <= i <= |labels| && labelMap == LabelMap(labels[..i])
    {
      assert labels[..i + 1][..i] == labels[..i];
      var l := labels[i];
      if l.resourceType == "image" {
        if l.resourceID !in labelMap { labelMap := labelMap[l.resourceID := map[]]; }
        labelMap := labelMap[l.resourceID := labelMap[l.resourceID][l.key := l.value]];
      }
      i := i + 1;
    }
    assert labels[..i] == labels;

    var ids: seq<string> := [];
    var rest := labelMap.Keys;
    while rest != {}
      invariant rest <= labelMap.Keys && NoRepeats(ids)
      invariant forall id :: id in ids <==> Selected(labels, selector, id) && id !in rest
      decreases |rest|
    {
      var id :| id in rest;
      var contained := MapContains(labelMap[id], selector);
      if contained { ids := ids + [id]; }
      rest := rest - {id};
    }

    images := [];
    i := 0;
    while i < |ids|
      invariant 0 <= i <= |ids| && NoRepeats(images)
      invariant forall j | 0 <= j < i :: ids[j] in catalog
      invariant forall id :: id in images <==> id in ids[..i] && catalog[id].location == location
    {
      var id := ids[i];
      if id !in catalog { return true, []; }
      if catalog[id].location == location { images := images + [id]; }
      i := i + 1;
    }
    return false, images;
  }

  // ---- the name filter ----

  predicate HasPart(s: string, part: string) {
    exists i | 0 <= i <= |s| :: StartsWith(s[i..], part)
  }

  predicate StartsWith(s: string, part: string) { |part| <= |s| && s[..|part|] == part }

  /** The version may be anywhere in the name. */
  lemma HasPartIff(s: string, part: string)
    ensures HasPart(s, part) <==> exists a: string, b: string :: s == a + part + b
  {
    if HasPart(s, part) {
      var i :| 0 <= i <= |s| && StartsWith(s[i..], part);
      assert s == s[..i] + part + s[i + |part|..];
    }
    if a: string, b: string :| s == a + part + b {
      assert s[|a|..] == part + b && StartsWith(s[|a|..], part);
    }
  }

  /** filterImagesByName. */
  method FilterByName(ids: seq<string>, catalog: map<string, Image>, part: string) returns (r: seq<string>)
    requires NoRepeats(ids) && forall id | id in ids :: id in catalog
    ensures NoRepeats(r) && forall id :: id in r <==> id in ids && HasPart(catalog[id].name, part)
  {
    r := [];
    var i := 0;
    while i < |ids|
      invariant 0 <= i <= |ids| && NoRepeats(r)
      invariant forall id :: id in r <==> id in ids[..i] && HasPart(catalog[id].name, part)
    {
      if HasPart(catalog[ids[i]].name, part) { r := r + [ids[i]]; }
      i := i + 1;
    }
    assert ids[..i] == ids;
  }

  // ---- the newest first ----

  ghost predicate NewestFirst(ids: seq<string>, catalog: map<string, Image>)
    requires forall id | id in ids :: id in catalog
  {
    forall i, j | 0 <= i < j < |ids| :: catalog[ids[j]].created <= catalog[ids[i]].created
  }

  /** A result of sorting: the same images, newest first; equally old ones in any order. */
  ghost predicate Sorts(sorted: seq<string>, ids: seq<string>, catalog: map<string, Image>) {
    |sorted| == |ids| && (forall id :: id in sorted <==> id in ids) && (forall id | id in sorted :: id in catalog) &&
    NewestFirst(sorted, catalog)
  }

  function InsertAt(s: seq<string>, k: nat, x: string): seq<string>
    requires k <= |s|
  {
    s[..k] + [x] + s[k..]
  }

  lemma InsertAtMembers(s: seq<string>, k: nat, x: string, id: string)
    requires k <= |s|
    ensures id in InsertAt(s, k, x) <==> id in s || id == x
  {
    assert s == s[..k] + s[k..];
  }

  method Insert(sorted: seq<string>, x: string, catalog: map<string, Image>) returns (r: seq<string>)
    requires x in catalog && (forall id | id in sorted :: id in catalog) && NewestFirst(sorted, catalog)
    ensures Sorts(r, sorted + [x], catalog)
  {
    var k := 0;
    while k < |sorted| && catalog[sorted[k]].created >= catalog[x].created
      invariant 0 <= k <= |sorted| && forall j | 0 <= j < k :: catalog[sorted[j]].created >= catalog[x].created
    {
      k := k + 1;
    }
    r := InsertAt(sorted, k, x);
    forall id ensures id in r <==> id in sorted + [x] { InsertAtMembers(sorted, k, x, id); }
    InsertKeepsOrder(sorted, k, x, catalog);
  }

  lemma InsertKeepsOrder(s: seq<string>, k: nat, x: string, catalog: map<string, Image>)
    requires k <= |s| && x in catalog && (forall id | id in s :: id in catalog) && NewestFirst(s, catalog)
    requires forall j | 0 <= j < k :: catalog[s[j]].created >= catalog[x].created
    requires k < |s| ==> catalog[s[k]].created < catalog[x].created
    ensures forall id | id in InsertAt(s, k, x) :: id in catalog
    ensures NewestFirst(InsertAt(s, k, x), catalog)
  {
    var r := InsertAt(s, k, x);
    forall id | id in r ensures id in catalog { InsertAtMembers(s, k, x, id); }
    forall i, j | 0 <= i < j < |r| ensures catalog[r[j]].created <= catalog[r[i]].created {
      assert r[i] == if i < k then s[i] else if i == k then x else s[i - 1];
      assert r[j] == if j < k then s[j] else if j == k then x else s[j - 1];
      assert k < j ==> catalog[s[j - 1]].created <= catalog[s[k]].created;
    }
  }

  /** Sorting as the library does it; of its result no more is used than this contract. */
  method SortNewestFirst(ids: seq<string>, catalog: map<string, Image>) returns (sorted: seq<string>)
    requires forall id | id in ids :: id in catalog
    ensures Sorts(sorted, ids, catalog)
  {
    sorted := [];
    var i := 0;
    while i < |ids|
      invariant 0 <= i <= |ids| && Sorts(sorted, ids[..i], catalog)
    {
      sorted := Insert(sorted, ids[i], catalog);
      assert ids[..i + 1] == ids[..i] + [ids[i]];
      i := i + 1;
    }
    assert ids[..i] == ids;
  }

  // ---- lookupImageID ----

  datatype Policy = Exact | Newest

  datatype Choice = LookupFails | VersionMissing | NoMatch | Ambiguous | Chosen(id: string)

  /** The resolution policy, applied to the images found. */
  method Choose(images: seq<string>, catalog: map<string, Image>, policy: Policy) returns (r: Choice)
    requires forall id | id in images :: id in catalog
    ensures r.NoMatch? <==> images == []
    ensures r.Ambiguous? <==> policy.Exact? && |images| > 1
    ensures r.Chosen? <==> images != [] && !r.Ambiguous?
    ensures r.Chosen? ==> r.id in images
    ensures r.Chosen? && policy.Newest? ==> forall id | id in images :: catalog[id].created <= catalog[r.id].created
  {
    if |images| == 0 { return NoMatch; }
    if policy.Exact? {
      if |images| > 1 { return Ambiguous; }
      return Chosen(images[0]);
    }
    var sorted := SortNewestFirst(images, catalog);
    assert sorted[0] in sorted;
    return Chosen(sorted[0]);
  }

  /** What the spec and the machine ask for; the version is None if it is not to be in the name. */
  datatype Query = Query(labels: seq<Label>, selector: Labels, location: string, version: Option<string>)

  predicate Eligible(q: Query, catalog: map<string, Image>, id: string) {
    Candidate(q.labels, q.selector, q.location, catalog, id) &&
    (q.version.Some? ==> HasPart(catalog[id].name, q.version.value))
  }

  ghost predicate OnlyEligible(q: Query, catalog: map<string, Image>, id: string) {
    Eligible(q, catalog, id) && forall other :: Eligible(q, catalog, other) ==> other == id
  }

  /** A selected image cannot be fetched. */
  ghost predicate Broken(q: Query, catalog: map<string, Image>) {
    exists id :: Selected(q.labels, q.selector, id) && id !in catalog
  }

  lemma OneImageIffOnlyEligible(q: Query, catalog: map<string, Image>, images: seq<string>)
    requires NoRepeats(images) && forall id :: id in images <==> Eligible(q, catalog, id)
    ensures |images| == 1 <==> exists id :: OnlyEligible(q, catalog, id)
  {
    if |images| == 1 {
      assert images[0] in images;
      assert OnlyEligible(q, catalog, images[0]);
    }
    if |images| > 1 {
      assert images[0] in images && images[1] in images && images[0] != images[1];
    }
  }

  method EligibleImages(q: Query, catalog: map<string, Image>) returns (failed: bool, images: seq<string>)
    requires q.version != Some("")
    ensures failed == Broken(q, catalog)
    ensures !failed ==> NoRepeats(images) && forall id :: id in images <==> Eligible(q, catalog, id)
  {
    failed, images := LookupBySelector(q.labels, q.selector, q.location, catalog);
    if !failed && q.version.Some? {
      images := FilterByName(images, catalog, q.version.value);
    }
  }

  /**
   Without an image ID in the spec: for every order of maps and every sort, Exact chooses an image
   exactly if it is the only eligible one, and Newest chooses one than which none is newer.
   */
  method LookupImageID(q: Query, catalog: map<string, Image>, policy: Policy) returns (r: Choice)
    ensures r.LookupFails? <==> Broken(q, catalog)
    ensures r.VersionMissing? <==> !Broken(q, catalog) && q.version == Some("")
    ensures r.NoMatch? <==>
      !Broken(q, catalog) && q.version != Some("") && forall id :: !Eligible(q, catalog, id)
    ensures r.Chosen? ==> Eligible(q, catalog, r.id)
    ensures policy.Exact? ==>
      (r.Chosen? <==> !Broken(q, catalog) && q.version != Some("") && exists id :: OnlyEligible(q, catalog, id))
    ensures policy.Newest? ==>
      (r.Chosen? <==> !Broken(q, catalog) && q.version != Some("") && exists id :: Eligible(q, catalog, id))
    ensures policy.Newest? && r.Chosen? ==>
      forall id :: Eligible(q, catalog, id) ==> catalog[id].created <= catalog[r.id].created
  {
    if q.version == Some("") {
      var failed, _ := LookupBySelector(q.labels, q.selector, q.location, catalog);
      return if failed then LookupFails else VersionMissing;
    }
    var failed, images := EligibleImages(q, catalog);
    if failed { return LookupFails; }
    r := Choose(images, catalog, policy);
    OneImageIffOnlyEligible(q, catalog, images);
    assert images != [] ==> images[0] in images;
  }
}
