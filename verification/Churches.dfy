/**
 The hierarchy of churches (src/church/services/church.service.ts, src/church/entities/church.entity.ts).

 Churches are rows that point to their parent. `Forest` is what every write keeps; from it follows that every chain of
 parents is short and ends at a conference.
 */
module Churches {
  import opened Wrappers
  import opened Slugs
  import Wkt

  datatype EntityType =
    Conference | Archdiocese | Diocese | Vicariat | Paroisse | Communaute | ChurchBuilding | Chapel

  datatype Church = Church(
    kind: EntityType,
    name: string,
    slug: string,
    parentId: Option<nat>,
    countryId: Option<string>,
    perimeter: Option<string>)

  type Table = map<nat, Church>

  datatype Error =
    NotFound | RootHasParent | CountryRequired | CountryUnknown | ParentRequired | LeafParent | ParentRank | HasChildren

  predicate IsLeaf(t: EntityType) {
    t == ChurchBuilding || t == Chapel
  }

  /** The index in RANKED_TYPES, or -1. */
  function IndexOf(t: EntityType): (i: int) {
    match t
    case Conference => 0
    case Archdiocese => 1
    case Diocese => 2
    case Vicariat => 3
    case Paroisse => 4
    case Communaute => 5
    case _ => -1
  }

  /** `validateHierarchy`; None is acceptance. */
  function ValidateHierarchy(t: Table, countries: set<string>, kind: EntityType,
                             parentId: Option<nat>, countryId: Option<string>): Option<Error>
  {
    if kind == Conference then
      if parentId.Some? then Some(RootHasParent)
      else if countryId.None? || countryId.value == "" then Some(CountryRequired)
      else if countryId.value !in countries then Some(CountryUnknown)
      else None
    else if parentId.None? then Some(ParentRequired)
    else if parentId.value !in t then Some(NotFound)
    else
      var parent := t[parentId.value];
      if IsLeaf(kind) then (if parent.kind == Paroisse || parent.kind == Communaute then None else Some(LeafParent))
      else if IndexOf(parent.kind) == -1 || IndexOf(parent.kind) >= IndexOf(kind) then Some(ParentRank)
      else None
  }

  // ---- what every write keeps ----

  /** The level of a type: the ranked types in order, and the leaves below them all. */
  function Rank(t: EntityType): (r: nat)
    ensures r <= 6
  {
    if IsLeaf(t) then 6 else IndexOf(t)
  }

  /** A conference stands at the root, a leaf under a parish or community, any other church lower than its parent. */
  predicate WellPlaced(t: Table, c: Church) {
    if c.kind == Conference then c.parentId.None?
    else
      && c.parentId.Some? && c.parentId.value in t
      && var p := t[c.parentId.value].kind;
         && Rank(p) < Rank(c.kind)
         && (IsLeaf(c.kind) ==> p == Paroisse || p == Communaute)
  }

  ghost predicate Forest(t: Table) {
    forall id :: id in t ==> WellPlaced(t, t[id])
  }

  ghost predicate SlugsUnique(t: Table) {
    forall i, j :: i in t && j in t && i != j ==> t[i].slug != t[j].slug
  }

  /** The check accepts exactly the well-placed churches, apart from what it asks about the country. */
  lemma AcceptsWellPlaced(t: Table, countries: set<string>, c: Church)
    ensures ValidateHierarchy(t, countries, c.kind, c.parentId, c.countryId).None?
            <==> WellPlaced(t, c)
                 && (c.kind == Conference ==>
                       c.countryId.Some? && c.countryId.value != "" && c.countryId.value in countries)
  {
  }

  /** Which type may stand directly under which. */
  predicate MayStandUnder(child: EntityType, parent: EntityType) {
    match child
    case Conference => false
    case Archdiocese => parent == Conference
    case Diocese => parent == Conference || parent == Archdiocese
    case Vicariat => parent == Conference || parent == Archdiocese || parent == Diocese
    case Paroisse => parent == Conference || parent == Archdiocese || parent == Diocese || parent == Vicariat
    case Communaute =>
      parent == Conference || parent == Archdiocese || parent == Diocese || parent == Vicariat || parent == Paroisse
    case ChurchBuilding => parent == Paroisse || parent == Communaute
    case Chapel => parent == Paroisse || parent == Communaute
  }

  /** What a church may be created as: a conference of a known country, or anything under a parent it may stand under. */
  predicate MayBeCreated(t: Table, countries: set<string>, kind: EntityType,
                         parentId: Option<nat>, countryId: Option<string>)
  {
    if kind == Conference then parentId.None? && countryId.Some? && countryId.value != "" && countryId.value in countries
    else parentId.Some? && parentId.value in t && MayStandUnder(kind, t[parentId.value].kind)
  }

  /** The check accepts exactly these, and names the first thing wrong with any other. */
  lemma AcceptsByName(t: Table, countries: set<string>, kind: EntityType, parentId: Option<nat>, countryId: Option<string>)
    ensures var e := ValidateHierarchy(t, countries, kind, parentId, countryId);
            && (e.None? <==> MayBeCreated(t, countries, kind, parentId, countryId))
            && (e == Some(RootHasParent) <==> kind == Conference && parentId.Some?)
            && (e == Some(CountryRequired) <==> kind == Conference && parentId.None? && GetOr(countryId, "") == "")
            && (e == Some(ParentRequired) <==> kind != Conference && parentId.None?)
            && (e == Some(NotFound) <==> kind != Conference && parentId.Some? && parentId.value !in t)
            && (e == Some(LeafParent) ==> kind == ChurchBuilding || kind == Chapel)
            && (e == Some(ParentRank) ==> kind != ChurchBuilding && kind != Chapel && kind != Conference)
  {
  }

  /** In a forest every church stands under a type it may stand under. */
  lemma StandsByName(t: Table, id: nat)
    requires Forest(t) && id in t && t[id].kind != Conference
    ensures t[id].parentId.Some? && t[id].parentId.value in t
    ensures MayStandUnder(t[id].kind, t[t[id].parentId.value].kind)
  {
  }

  /** The chain from a church to its root, the church first. */
  ghost function Chain(t: Table, id: nat): (chain: seq<nat>)
    requires Forest(t) && id in t
    ensures chain != [] && chain[0] == id
    decreases Rank(t[id].kind)
  {
    if t[id].kind == Conference then [id] else [id] + Chain(t, t[id].parentId.value)
  }

  /**
   Every chain ends at a conference after at most six steps, and levels only rise on the way; so no church is its own
   ancestor.
   */
  lemma {:induction false} ChainsAreShort(t: Table, id: nat)
    requires Forest(t) && id in t
    ensures var chain := Chain(t, id);
            && |chain| - 1 <= Rank(t[id].kind) <= 6
            && (forall i :: 0 <= i < |chain| ==> chain[i] in t)
            && t[chain[|chain| - 1]].kind == Conference
            && (forall i :: 0 <= i < |chain| - 1 ==> t[chain[i]].parentId == Some(chain[i + 1]))
            && (forall i, j :: 0 <= i < j < |chain| ==> Rank(t[chain[j]].kind) < Rank(t[chain[i]].kind))
            && (forall i, j :: 0 <= i < j < |chain| ==> chain[i] != chain[j])
    decreases Rank(t[id].kind)
  {
    if t[id].kind != Conference {
      ChainsAreShort(t, t[id].parentId.value);
    }
  }

  /** No church is the parent of a leaf's child: leaves have no children. */
  lemma LeavesHaveNoChildren(t: Table, parent: nat, child: nat)
    requires Forest(t) && child in t && t[child].parentId == Some(parent)
    ensures parent in t && !IsLeaf(t[parent].kind)
  {
  }

  predicate HasChild(t: Table, id: nat) {
    exists child :: child in t && t[child].parentId == Some(id)
  }

  // ---- the service ----

  /** The slugs of the churches other than `exclude`. */
  function OtherSlugs(t: Table, exclude: Option<nat>): set<string> {
    set id | id in t && Some(id) != exclude :: t[id].slug
  }

  lemma {:induction false} OtherSlugsCount(t: Table, exclude: Option<nat>)
    ensures |OtherSlugs(t, exclude)| <= |t|
    decreases |t|
  {
    if t == map[] {
      assert OtherSlugs(t, exclude) == {};
    } else {
      var id :| id in t;
      var rest := t - {id};
      OtherSlugsCount(rest, exclude);
      assert OtherSlugs(t, exclude) <= OtherSlugs(rest, exclude) + {t[id].slug};
      SubsetCount(OtherSlugs(t, exclude), OtherSlugs(rest, exclude) + {t[id].slug});
      assert |rest.Keys| == |t.Keys| - 1;
    }
  }

  predicate IsTaken(t: Table, exclude: Option<nat>, slug: string) {
    exists id :: id in t && Some(id) != exclude && t[id].slug == slug
  }

  /** `slug` is the k-th candidate, the first that is free; at most one more is tried than there are churches. */
  ghost predicate FirstFreeAt(t: Table, exclude: Option<nat>, base: string, slug: string, k: nat) {
    && 1 <= k <= |t| + 1
    && slug == Candidate(base, k) && !IsTaken(t, exclude, slug)
    && forall j :: 1 <= j < k ==> IsTaken(t, exclude, Candidate(base, j))
  }

  ghost predicate IsFirstFree(t: Table, exclude: Option<nat>, fold: string -> string, source: string, slug: string) {
    exists k :: FirstFreeAt(t, exclude, Base(fold, source), slug, k)
  }

  /** No other church has the first free slug. */
  lemma FirstFreeIsFree(t: Table, exclude: Option<nat>, base: string, slug: string, k: nat)
    requires FirstFreeAt(t, exclude, base, slug, k)
    ensures forall id :: id in t && Some(id) != exclude ==> t[id].slug != slug
  {
    forall id | id in t && Some(id) != exclude ensures t[id].slug != slug {
      assert t[id].slug in OtherSlugs(t, exclude);
    }
  }

  lemma FirstFreeIsUnique(t: Table, exclude: Option<nat>, fold: string -> string, source: string, s: string, s': string)
    requires IsFirstFree(t, exclude, fold, source, s) && IsFirstFree(t, exclude, fold, source, s')
    ensures s == s'
  {
    var b := Base(fold, source);
    var j :| FirstFreeAt(t, exclude, b, s, j);
    var k :| FirstFreeAt(t, exclude, b, s', k);
  }

  /** A table with one row written keeps being a forest of distinct slugs. */
  lemma WritingKeeps(t: Table, id: nat, c: Church)
    requires Forest(t) && SlugsUnique(t) && WellPlaced(t, c)
    requires id in t ==> c.kind == t[id].kind
    requires forall i :: i in t && i != id ==> t[i].slug != c.slug
    ensures Forest(t[id := c]) && SlugsUnique(t[id := c])
  {
  }

  lemma PlacedInForest(t: Table, id: nat)
    requires Forest(t) && SlugsUnique(t) && id in t
    ensures WellPlaced(t, t[id]) && forall i :: i in t && i != id ==> t[i].slug != t[id].slug
  {
  }

  lemma PlacedAlike(t: Table, c: Church, d: Church)
    requires WellPlaced(t, c) && c.kind == d.kind && c.parentId == d.parentId
    ensures WellPlaced(t, d)
  {
  }

  class ChurchService {
    var churches: Table
    var nextId: nat

    ghost predicate Valid()
      reads this
    {
      Forest(churches) && SlugsUnique(churches) && forall id :: id in churches ==> id < nextId
    }

    constructor ()
      ensures Valid() && churches == map[]
    {
      churches, nextId := map[], 0;
    }

    /** The first free slug, found within one probe more than there are churches. */
    method PrepareSlug(fold: string -> string, source: string, exclude: Option<nat>)
      returns (slug: string, ghost probes: nat)
      ensures FirstFreeAt(churches, exclude, Base(fold, source), slug, probes)
      ensures IsFirstFree(churches, exclude, fold, source, slug)
    {
      OtherSlugsCount(churches, exclude);
      slug, probes := FirstFree(Base(fold, source), OtherSlugs(churches, exclude));
      assert FirstFreeAt(churches, exclude, Base(fold, source), slug, probes);
    }

    method Create(fold: string -> string, countries: set<string>, kind: EntityType, name: string,
                  slugSource: Option<string>, parentId: Option<nat>, countryId: Option<string>)
      returns (r: Result<nat, Error>)
      requires Valid()
      modifies this
      ensures Valid()
      ensures match ValidateHierarchy(old(churches), countries, kind, parentId, countryId)
              case Some(e) => r == Failure(e) && churches == old(churches)
              case None =>
                && r.Success? && r.value !in old(churches) && r.value in churches
                && churches == old(churches)[r.value := churches[r.value]]
                && churches[r.value] == Church(kind, name, churches[r.value].slug, parentId, countryId, None)
                && IsFirstFree(old(churches), None, fold, if slugSource.Some? then slugSource.value else name,
                               churches[r.value].slug)
      ensures r.Success? <==> MayBeCreated(old(churches), countries, kind, parentId, countryId)
    {
      hide Forest, SlugsUnique, WellPlaced, ValidateHierarchy, Base, Candidate, FirstFreeAt, MayBeCreated;
      AcceptsByName(churches, countries, kind, parentId, countryId);
      var refused := ValidateHierarchy(churches, countries, kind, parentId, countryId);
      if refused.Some? { return Failure(refused.value); }
      var slug, probes := PrepareSlug(fold, GetOr(slugSource, name), None);
      FirstFreeIsFree(churches, None, Base(fold, GetOr(slugSource, name)), slug, probes);
      var church := Church(kind, name, slug, parentId, countryId, None);
      AcceptsWellPlaced(churches, countries, church);
      WritingKeeps(churches, nextId, church);
      churches := churches[nextId := church];
      nextId := nextId + 1;
      return Success(nextId - 1);
    }

    /** Neither the type nor the parent can be changed. */
    method Update(fold: string -> string, id: nat, name: Option<string>, slugSource: Option<string>)
      returns (r: Result<Church, Error>)
      requires Valid()
      modifies this`churches
      ensures Valid()
      ensures r.Success? <==> id in old(churches)
      ensures r.Failure? ==> r.error == NotFound && churches == old(churches)
      ensures r.Success? ==>
                var was := old(churches)[id];
                && churches == old(churches)[id := r.value]
                && r.value == was.(name := r.value.name, slug := r.value.slug)
                && r.value.name == (if name.Some? then name.value else was.name)
                && (slugSource.None? ==> r.value.slug == was.slug)
                && (slugSource.Some? ==> IsFirstFree(old(churches), Some(id), fold, slugSource.value, r.value.slug))
    {
      hide Forest, SlugsUnique, WellPlaced, Base, Candidate, FirstFreeAt;
      if id !in churches { return Failure(NotFound); }
      PlacedInForest(churches, id);
      var patch := churches[id];
      if name.Some? { patch := patch.(name := name.value); }
      if slugSource.Some? {
        var slug, probes := PrepareSlug(fold, slugSource.value, Some(id));
        FirstFreeIsFree(churches, Some(id), Base(fold, slugSource.value), slug, probes);
        patch := patch.(slug := slug);
      }
      PlacedAlike(churches, churches[id], patch);
      WritingKeeps(churches, id, patch);
      churches := churches[id := patch];
      return Success(patch);
    }

    /** The foreign key of the children refuses the deletion of a parent. */
    method Delete(id: nat) returns (r: Result<(), Error>)
      requires Valid()
      modifies this`churches
      ensures Valid()
      ensures r.Failure? ==> r.error == if id !in old(churches) then NotFound else HasChildren
      ensures r.Success? <==>
                id in old(churches)
                && !exists child :: child in old(churches) && old(churches)[child].parentId == Some(id)
      ensures churches == if r.Success? then old(churches) - {id} else old(churches)
    {
      if id !in churches { return Failure(NotFound); }
      if HasChild(churches, id) { return Failure(HasChildren); }
      churches := churches - {id};
      return Success(());
    }

    /** The perimeter is stored as text; it reads back as the closed ring of its vertices. */
    method SetPerimeter(id: nat, points: seq<Wkt.Position>) returns (r: Result<Church, Error>)
      requires Valid() && points != [] && Wkt.IsRing(points)
      modifies this`churches
      ensures Valid()
      ensures r.Success? <==> id in old(churches)
      ensures r.Failure? ==> churches == old(churches)
      ensures r.Success? ==>
                && churches == old(churches)[id := r.value]
                && r.value == old(churches)[id].(perimeter := r.value.perimeter)
                && r.value.perimeter.Some?
                && Wkt.ParsePolygon(r.value.perimeter.value) == Some([points + [points[0]]])
    {
      hide Forest, SlugsUnique, WellPlaced, Wkt.ParsePolygon, Wkt.PrintPolygon, Wkt.IsRing;
      if id !in churches { return Failure(NotFound); }
      PlacedInForest(churches, id);
      var ring := Wkt.ClosedRing(points);
      Wkt.PerimeterReadsBack(points);
      var church := churches[id].(perimeter := Some(Wkt.PrintPolygon([ring])));
      PlacedAlike(churches, churches[id], church);
      WritingKeeps(churches, id, church);
      churches := churches[id := church];
      return Success(church);
    }
  }
}
