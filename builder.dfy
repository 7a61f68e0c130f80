/** FMLaravel's Eloquent builder: with() records the relations to eager-load
    and hands the query those that the model declares as related-record
    relations, in the order they were requested. */
module Builders {
  import opened Wrappers
  import opened OrderedMap
  import opened Models
  import opened Queries

  /** Eloquent's with() for plain relation names: a name not yet listed is
      appended, a name already listed keeps its place. */
  function AddEagerNames(eager: seq<string>, names: seq<string>): (r: seq<string>)
    decreases |names|
  {
    if names == [] then eager
    else AddEagerNames(if names[0] in eager then eager else eager + [names[0]], names[1..])
  }

  /** The names of the model's related-records table, array_keys of
      getRelatedRecordsInfo(). */
  function DeclaredRelations(cfg: ModelConfig): (ds: seq<string>)
    ensures forall r :: r in ds <==> Get(cfg.relatedRecordsInfo, r).Some?
  {
    var info := RelatedRecordsInfo(cfg, None);
    Keys(info.all)
  }

  /** The list with() hands the query: the eager-load names the model declares. */
  function EagerLoadFor(cfg: ModelConfig, eager: seq<string>): seq<string> {
    Intersect(eager, DeclaredRelations(cfg))
  }

  lemma {:induction false} DistinctSnoc<T>(s: seq<T>, x: T)
    requires Distinct(s) && x !in s
    ensures Distinct(s + [x])
  {
    if s != [] {
      assert (s + [x])[1..] == s[1..] + [x];
      DistinctSnoc(s[1..], x);
    }
  }

  /** with() only adds names: earlier ones stay in place, every requested
      name ends up listed, and no name is listed twice. */
  lemma {:induction false} AddEagerNamesGrows(eager: seq<string>, names: seq<string>)
    ensures eager <= AddEagerNames(eager, names)
    ensures forall x :: x in AddEagerNames(eager, names) <==> x in eager || x in names
    ensures Distinct(eager) ==> Distinct(AddEagerNames(eager, names))
    decreases |names|
  {
    if names != [] {
      var next := if names[0] in eager then eager else eager + [names[0]];
      if names[0] !in eager && Distinct(eager) {
        DistinctSnoc(eager, names[0]);
      }
      AddEagerNamesGrows(next, names[1..]);
      assert names == [names[0]] + names[1..];
    }
  }

  /** On a fresh builder, distinct names are listed exactly as requested. */
  lemma {:induction false} AddEagerNamesFresh(eager: seq<string>, names: seq<string>)
    requires Distinct(names) && forall x :: x in names ==> x !in eager
    ensures AddEagerNames(eager, names) == eager + names
    decreases |names|
  {
    if names != [] {
      AddEagerNamesFresh(eager + [names[0]], names[1..]);
      assert eager + [names[0]] + names[1..] == eager + names;
    }
  }

  /** The list with() passes on after a first call with distinct names:
      only requested names, only declared ones, every requested declared
      name, in the requested order, each once. */
  lemma EagerLoadOfRequest(cfg: ModelConfig, requested: seq<string>)
    requires Distinct(requested)
    ensures var e := EagerLoadFor(cfg, AddEagerNames([], requested));
      && (forall x :: x in e ==> x in requested)
      && (forall x :: x in e ==> Get(cfg.relatedRecordsInfo, x).Some?)
      && (forall x :: x in requested && Get(cfg.relatedRecordsInfo, x).Some? ==> x in e)
      && SubsequenceOf(e, requested)
      && Distinct(e)
  {
    AddEagerNamesFresh([], requested);
    assert [] + requested == requested;
    IntersectKeepsOrder(requested, DeclaredRelations(cfg));
    IntersectDistinct(requested, DeclaredRelations(cfg));
  }

  /** The same after any number of calls: the names the model declares among
      all names requested so far, first-request order. */
  lemma EagerLoadAfterCalls(cfg: ModelConfig, eager: seq<string>, requested: seq<string>)
    requires Distinct(eager)
    ensures var all := AddEagerNames(eager, requested);
      var e := EagerLoadFor(cfg, all);
      && (forall x :: x in e <==> (x in eager || x in requested) && Get(cfg.relatedRecordsInfo, x).Some?)
      && SubsequenceOf(e, all)
      && Distinct(e)
  {
    var all := AddEagerNames(eager, requested);
    AddEagerNamesGrows(eager, requested);
    IntersectKeepsOrder(all, DeclaredRelations(cfg));
    IntersectDistinct(all, DeclaredRelations(cfg));
  }

  class Builder {
    const model: Model
    const query: QueryBuilder
    var eagerLoad: seq<string>

    constructor(model: Model, query: QueryBuilder)
      ensures this.model == model && this.query == query && eagerLoad == []
    {
      this.model := model;
      this.query := query;
      eagerLoad := [];
    }

    /** with($relations), for plain relation names */
    method With(relations: seq<string>)
      modifies this`eagerLoad, query.extractor`eagerLoad
      ensures eagerLoad == AddEagerNames(old(eagerLoad), relations)
      ensures query.extractor.eagerLoad == EagerLoadFor(model.cfg, eagerLoad)
    {
      eagerLoad := AddEagerNames(eagerLoad, relations);
      var declared := DeclaredRelations(model.cfg);
      query.SetEagerLoad(Intersect(eagerLoad, declared));
    }
  }
}
