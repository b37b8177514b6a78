/** src/modules/catalog/catalog.service.ts and src/modules/pricing/pricing.service.ts: listings with embedded prices. */
module Catalog {
  import opened Wrappers
  import opened Listing
  import Like

  datatype Service = Service(id: string, agentId: string, name: string, description: string, createdAt: int)

  datatype Tariff = Tariff(id: string, serviceId: string, createdAt: int)

  const TARIFF_AGE := (t: Tariff) => t.createdAt
  const SERVICE_AGE := (s: Service) => s.createdAt

  // ---------- PricingService ----------

  function OfService(serviceId: string): Tariff -> bool { (t: Tariff) => t.serviceId == serviceId }

  /** `findAll({ serviceId })`; an empty id is falsy and means no filter. */
  function FindTariffs(table: seq<Tariff>, serviceId: Option<string>): seq<Tariff> {
    var asked := serviceId.Some? && serviceId.value != "";
    NewestFirst(if asked then Filter(table, OfService(serviceId.value)) else table, TARIFF_AGE)
  }

  function Bucket(grouped: map<string, seq<Tariff>>, id: string): seq<Tariff> {
    if id in grouped then grouped[id] else []
  }

  /** One step of the grouping loop. */
  function Push(grouped: map<string, seq<Tariff>>, t: Tariff): map<string, seq<Tariff>> {
    grouped[t.serviceId := Bucket(grouped, t.serviceId) + [t]]
  }

  ghost function Group(found: seq<Tariff>): map<string, seq<Tariff>> {
    if found == [] then map[] else Push(Group(found[..|found| - 1]), found[|found| - 1])
  }

  class PricingService {
    var tariffs: seq<Tariff>

    constructor (table: seq<Tariff>)
      ensures tariffs == table
    {
      tariffs := table;
    }

    /** Each requested id gets its own tariffs, newest first, and nothing else is in the map. */
    method FindByServiceIds(serviceIds: seq<string>) returns (grouped: map<string, seq<Tariff>>)
      ensures forall id :: id in serviceIds ==>
                Bucket(grouped, id) == NewestFirst(Filter(tariffs, OfService(id)), TARIFF_AGE)
      ensures forall id :: id in grouped ==> id in serviceIds && grouped[id] != []
    {
      hide Group, NewestFirst, Filter;
      grouped := map[];
      var ids := set id | id in serviceIds;
      if ids == {} {
        assert forall id :: id in serviceIds ==> id in ids;
        return;
      }
      var wanted := (t: Tariff) => t.serviceId in ids;
      var found := NewestFirst(Filter(tariffs, wanted), TARIFF_AGE);
      GroupNothing();
      assert found[..0] == [];
      for i := 0 to |found|
        invariant grouped == Group(found[..i])
      {
        GroupStep(found, i);
        assert [] + [found[i]] == [found[i]];
        if found[i].serviceId in grouped {
          grouped := grouped[found[i].serviceId := grouped[found[i].serviceId] + [found[i]]];
        } else {
          grouped := grouped[found[i].serviceId := [found[i]]];
        }
      }
      assert found[..|found|] == found;
      GroupedAgrees(tariffs, serviceIds, wanted, grouped);
    }
  }

  lemma GroupNothing()
    ensures Group([]) == map[]
  {
  }

  lemma GroupStep(found: seq<Tariff>, i: nat)
    requires i < |found|
    ensures Group(found[..i + 1]) == Push(Group(found[..i]), found[i])
  {
    assert found[..i + 1][..i] == found[..i];
  }

  lemma GroupedAgrees(table: seq<Tariff>, ids: seq<string>, wanted: Tariff -> bool, grouped: map<string, seq<Tariff>>)
    requires forall t: Tariff :: wanted(t) <==> t.serviceId in ids
    requires grouped == Group(NewestFirst(Filter(table, wanted), TARIFF_AGE))
    ensures forall id :: id in ids ==> Bucket(grouped, id) == NewestFirst(Filter(table, OfService(id)), TARIFF_AGE)
    ensures forall id :: id in grouped ==> id in ids && grouped[id] != []
  {
    hide Filter, NewestFirst, Group;
    var found := NewestFirst(Filter(table, wanted), TARIFF_AGE);
    forall id | id in ids ensures Bucket(grouped, id) == NewestFirst(Filter(table, OfService(id)), TARIFF_AGE) {
      GroupFilters(found, id);
      GroupIsLookup(table, wanted, id);
    }
    forall id | id in grouped ensures id in ids && grouped[id] != [] {
      GroupFilters(found, id);
      assert grouped[id][0] in Filter(found, OfService(id));
      OnlyWanted(table, wanted, grouped[id][0]);
    }
  }

  /** A bucket holds the found rows of its service, in the order they were found. */
  lemma {:induction false} GroupFilters(found: seq<Tariff>, id: string)
    ensures Bucket(Group(found), id) == Filter(found, OfService(id))
    ensures id in Group(found) ==> Group(found)[id] != []
  {
    hide NewestFirst;
    if found != [] {
      var front, last := found[..|found| - 1], found[|found| - 1];
      GroupFilters(front, id);
      FilterConcat(front, [last], OfService(id));
      assert found == front + [last];
    }
  }

  lemma GroupIsLookup(table: seq<Tariff>, wanted: Tariff -> bool, id: string)
    requires forall t: Tariff :: t.serviceId == id ==> wanted(t)
    ensures Filter(NewestFirst(Filter(table, wanted), TARIFF_AGE), OfService(id))
         == NewestFirst(Filter(table, OfService(id)), TARIFF_AGE)
  {
    FilterNewestFirst(Filter(table, wanted), TARIFF_AGE, OfService(id));
    FilterTwice(table, wanted, OfService(id));
  }

  lemma OnlyWanted(table: seq<Tariff>, wanted: Tariff -> bool, t: Tariff)
    requires t in Filter(NewestFirst(Filter(table, wanted), TARIFF_AGE), OfService(t.serviceId))
    ensures wanted(t)
  {
    var kept := Filter(table, wanted);
    NewestFirstSorts(kept, TARIFF_AGE);
    assert t in NewestFirst(kept, TARIFF_AGE);
    assert t in multiset(kept);
  }

  /** The batched bucket of an id agrees with the single lookup unless the id is empty and other tariffs exist. */
  lemma BatchedAgreesIff(table: seq<Tariff>, id: string)
    ensures NewestFirst(Filter(table, OfService(id)), TARIFF_AGE) == FindTariffs(table, Some(id))
       <==> id != "" || forall t :: t in table ==> t.serviceId == ""
  {
    hide Filter, NewestFirst;
    if id == "" {
      var own := Filter(table, OfService(id));
      FilterAll(table, OfService(id));
      NewestFirstSorts(own, TARIFF_AGE);
      NewestFirstSorts(table, TARIFF_AGE);
      if NewestFirst(own, TARIFF_AGE) == NewestFirst(table, TARIFF_AGE) {
        assert multiset(own) == multiset(table);
        forall t | t in table ensures t.serviceId == "" {
          assert t in multiset(own);
        }
      }
    }
  }

  /** Counting over the buckets of distinct ids: each tariff of a requested id stands in one bucket, once. */
  function TotalInBuckets(grouped: map<string, seq<Tariff>>, ids: seq<string>, t: Tariff): nat {
    if ids == [] then 0 else multiset(Bucket(grouped, ids[0]))[t] + TotalInBuckets(grouped, ids[1..], t)
  }

  lemma {:induction false} EachTariffLandsOnce(table: seq<Tariff>, grouped: map<string, seq<Tariff>>,
                                               ids: seq<string>, t: Tariff)
    requires forall i, j :: 0 <= i < j < |ids| ==> ids[i] != ids[j]
    requires forall id :: id in ids ==>
               Bucket(grouped, id) == NewestFirst(Filter(table, OfService(id)), TARIFF_AGE)
    ensures TotalInBuckets(grouped, ids, t) == if t.serviceId in ids then multiset(table)[t] else 0
  {
    if ids != [] {
      var id := ids[0];
      EachTariffLandsOnce(table, grouped, ids[1..], t);
      NewestFirstSorts(Filter(table, OfService(id)), TARIFF_AGE);
      FilterCounts(table, OfService(id), t);
      assert id in ids && ids == [id] + ids[1..];
      assert id !in ids[1..];
    }
  }

  lemma {:induction false} FilterCounts<T>(rows: seq<T>, keep: T -> bool, r: T)
    ensures multiset(Filter(rows, keep))[r] == if keep(r) then multiset(rows)[r] else 0
  {
    if rows != [] {
      FilterCounts(rows[1..], keep, r);
      assert rows == [rows[0]] + rows[1..];
    }
  }

  // ---------- CatalogService ----------

  /** `agentId` and `term` (the trimmed q) are empty, and `limit` is 0, when the query leaves them out. */
  datatype ListQuery = ListQuery(agentId: string, term: string, limit: nat, page: Option<nat>, includeTariffs: bool)

  datatype Listed = Listed(service: Service, tariffs: Option<seq<Tariff>>)

  predicate Found(value: string, term: string, fold: char -> char) {
    Like.ILike(value, Like.ContainsPattern(term), fold) == Some(true)
  }

  function Selects(query: ListQuery, fold: char -> char): Service -> bool {
    (s: Service) => (query.agentId == "" || s.agentId == query.agentId)
         && (query.term == "" || Found(s.name, query.term, fold) || Found(s.description, query.term, fold))
  }

  function Page(rows: seq<Service>, query: ListQuery): (page: seq<Service>)
    requires query.page.Some? ==> query.page.value >= 1
  {
    if query.limit == 0 then rows
    else
      var skip := ((if query.page.Some? then query.page.value else 1) - 1) * query.limit;
      if |rows| <= skip then []
      else if |rows| <= skip + query.limit then rows[skip..]
      else rows[skip..skip + query.limit]
  }

  class CatalogService {
    var services: seq<Service>
    const pricing: PricingService

    constructor (table: seq<Service>, pricing: PricingService)
      ensures services == table && this.pricing == pricing
    {
      services, this.pricing := table, pricing;
    }

    /** The page of the matching services, newest first, each with the prices a single lookup would give. */
    method FindAll(query: ListQuery, fold: char -> char) returns (page: seq<Listed>)
      requires query.page.Some? ==> query.page.value >= 1
      ensures var rows := Page(NewestFirst(Filter(services, Selects(query, fold)), SERVICE_AGE), query);
              |page| == |rows| && forall i :: 0 <= i < |page| ==> page[i].service == rows[i]
      ensures forall i :: 0 <= i < |page| && !query.includeTariffs ==> page[i].tariffs == None
      ensures forall i :: 0 <= i < |page| && query.includeTariffs ==>
                page[i].tariffs == Some(NewestFirst(Filter(pricing.tariffs, OfService(page[i].service.id)), TARIFF_AGE))
      ensures forall i :: 0 <= i < |page| && query.includeTariffs && page[i].service.id != "" ==>
                page[i].tariffs == Some(FindTariffs(pricing.tariffs, Some(page[i].service.id)))
    {
      var rows := Page(NewestFirst(Filter(services, Selects(query, fold)), SERVICE_AGE), query);
      if !query.includeTariffs {
        page := seq(|rows|, i requires 0 <= i < |rows| => Listed(rows[i], None));
        return;
      }
      var ids := seq(|rows|, i requires 0 <= i < |rows| => rows[i].id);
      var grouped := pricing.FindByServiceIds(ids);
      page := seq(|rows|, i requires 0 <= i < |rows| => Listed(rows[i], Some(Bucket(grouped, rows[i].id))));
      forall i | 0 <= i < |page|
        ensures page[i].tariffs == Some(NewestFirst(Filter(pricing.tariffs, OfService(page[i].service.id)), TARIFF_AGE))
        ensures page[i].service.id != "" ==>
                  page[i].tariffs == Some(FindTariffs(pricing.tariffs, Some(page[i].service.id)))
      {
        assert ids[i] in ids;
        BatchedAgreesIff(pricing.tariffs, rows[i].id);
      }
    }
  }

  /** The rows a search keeps are those whose name or description contains the term. */
  lemma SearchSelects(query: ListQuery, s: Service, fold: char -> char)
    ensures Selects(query, fold)(s) <==>
      (query.agentId == "" || s.agentId == query.agentId)
      && (query.term == "" || Like.Occurs(query.term, s.name, fold) || Like.Occurs(query.term, s.description, fold))
  {
    Like.SearchFindsSubstrings(query.term, s.name, fold);
    Like.SearchFindsSubstrings(query.term, s.description, fold);
  }
}
