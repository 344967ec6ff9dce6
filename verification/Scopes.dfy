/** The engines of all scopes, made on first use. */
module Scopes {
  import opened Paths
  import opened ValueTypes
  import opened Evidences
  import opened Collapsing
  import opened Templating

  type Decisions = map<Scope, map<Prefix, ValueType>>

  function DecisionsOf(d: Decisions, sk: Scope): map<Prefix, ValueType> {
    if sk in d then d[sk] else map[]
  }

  /** The evidence of the positions each scope still watches. */
  type Views = map<Scope, map<Prefix, Evidence>>

  function ViewOf(v: Views, sk: Scope): map<Prefix, Evidence> {
    if sk in v then v[sk] else map[]
  }

  /** What a scope's engine knows; one that does not exist yet knows nothing. */
  function StageOf(d: Decisions, v: Views, sk: Scope): Stage {
    Stage(DecisionsOf(d, sk), ViewOf(v, sk))
  }

  /** One scope's engine is shown a path; the other scopes' know what they knew. */
  ghost predicate Taught(
    infer: Infer, opts: TemplateOptions, d0: Decisions, v0: Views, d: Decisions, v: Views, sk: Scope, path: string,
    collapsed: bool)
  {
    && sk in d && sk in v && d == d0[sk := d[sk]] && v == v0[sk := v[sk]]
    && Learned(infer, opts, StageOf(d0, v0, sk), path, StageOf(d, v, sk), collapsed)
  }

  lemma LearnedIsTaught(
    infer: Infer, opts: TemplateOptions, d: Decisions, v: Views, now: Stage, sk: Scope, path: string, collapsed: bool)
    requires sk in d && sk in v && Learned(infer, opts, Stage(d[sk], v[sk]), path, now, collapsed)
    ensures Taught(infer, opts, d, v, d[sk := now.decided], v[sk := now.view], sk, path, collapsed)
  {
    hide Learned;
  }

  lemma PutSame<V>(d: map<Scope, V>, sk: Scope)
    requires sk in d
    ensures d == d[sk := d[sk]]
  {
  }

  lemma PutTwice<V>(d: map<Scope, V>, sk: Scope, a: V, b: V)
    ensures d[sk := a][sk := b] == d[sk := b]
  {
  }

  class Registry {
    const opts: TemplateOptions
    const infer: Infer
    var engines: map<Scope, Engine>
    ghost var owned: set<Engine>
    ghost var stats: set<SegStat>
    /** What each scope has decided. */
    ghost var decisions: Decisions
    /** What each scope has seen. */
    ghost var views: Views

    /** The engine of a scope, well formed and made as the registry makes them. */
    ghost predicate Serves(eng: Engine, sk: Scope)
      reads eng`stats, eng`owned, eng`view, eng.owned
    {
      eng.Valid() && eng.scope == sk && eng.infer == infer && eng.opts == Effective(opts)
    }

    ghost predicate Valid()
      reads this, owned, stats
    {
      && decisions.Keys == views.Keys == engines.Keys
      && forall sk {:trigger engines[sk]} | sk in engines ::
           && engines[sk] in owned && engines[sk].owned <= stats && Serves(engines[sk], sk)
           && engines[sk].collapses == decisions[sk] && engines[sk].view == views[sk]
    }

    constructor (opts: TemplateOptions, infer: Infer)
      ensures Valid() && decisions == map[] && views == map[] && owned == {} && stats == {}
      ensures this.infer == infer && this.opts == opts
    {
      this.opts, this.infer, engines := opts, infer, map[];
      owned, stats, decisions, views := {}, {}, map[], map[];
    }

    /** All is well but for what this scope's engine has decided since. */
    ghost predicate ValidBut(sk: Scope)
      reads this, owned, stats, engines.Values, set o | sk in engines && o in engines[sk].owned
    {
      && decisions.Keys == views.Keys == engines.Keys && sk in engines
      && engines[sk] in owned && Serves(engines[sk], sk)
      && forall k {:trigger engines[k]} | k in engines && k != sk ::
           && engines[k] in owned && engines[k].owned <= stats && Serves(engines[k], k)
           && engines[k].collapses == decisions[k] && engines[k].view == views[k]
    }

    // These lemmas stand in for Valid where its body is hidden.

    lemma Was(sk: Scope)
      requires ValidBut(sk)
      ensures decisions.Keys == views.Keys == engines.Keys && sk in engines
      ensures engines[sk] in owned && Serves(engines[sk], sk)
      ensures forall k {:trigger engines[k]} | k in engines && k != sk ::
           && engines[k] in owned && engines[k].owned <= stats && Serves(engines[k], k)
           && engines[k].collapses == decisions[k] && engines[k].view == views[k]
    {
      hide Serves;
    }

    lemma WasValid()
      requires Valid()
      ensures decisions.Keys == views.Keys == engines.Keys
      ensures forall k {:trigger engines[k]} | k in engines ::
           && engines[k] in owned && engines[k].owned <= stats && Serves(engines[k], k)
           && engines[k].collapses == decisions[k] && engines[k].view == views[k]
    {
      hide Serves;
    }

    lemma NewServes(eng: Engine, sk: Scope)
      requires eng.Valid() && eng.scope == sk && eng.infer == infer && eng.opts == Effective(opts)
      ensures Serves(eng, sk)
    {
    }

    lemma Is()
      requires decisions.Keys == views.Keys == engines.Keys
      requires forall k {:trigger engines[k]} | k in engines ::
           && engines[k] in owned && engines[k].owned <= stats && Serves(engines[k], k)
           && engines[k].collapses == decisions[k] && engines[k].view == views[k]
      ensures Valid()
    {
      hide Serves;
    }

    /** What these fields will say of the engines once this scope's decisions are taken over. */
    lemma WillBe(sk: Scope, owners: set<SegStat>, d: Decisions, v: Views)
      requires ValidBut(sk) && owners == stats + engines[sk].owned
      requires d == decisions[sk := engines[sk].collapses] && v == views[sk := engines[sk].view]
      ensures d.Keys == v.Keys == engines.Keys
      ensures forall k {:trigger engines[k]} | k in engines ::
           && engines[k] in owned && engines[k].owned <= owners && Serves(engines[k], k)
           && engines[k].collapses == d[k] && engines[k].view == v[k]
    {
      hide Serves;
    }

    ghost method Settle(sk: Scope)
      requires ValidBut(sk)
      modifies this`stats, this`decisions, this`views
      ensures Valid() && stats == old(stats) + engines[sk].owned
      ensures decisions == old(decisions)[sk := engines[sk].collapses] && views == old(views)[sk := engines[sk].view]
    {
      hide *;
      Was(sk);
      var owners, d, v := stats + engines[sk].owned, decisions[sk := engines[sk].collapses],
        views[sk := engines[sk].view];
      WillBe(sk, owners, d, v);
      stats, decisions, views := owners, d, v;
      Is();
    }

    ghost method Admit(eng: Engine)
      requires Valid()
      modifies this`owned
      ensures Valid() && owned == old(owned) + {eng}
    {
      hide *;
      WasValid();
      owned := owned + {eng};
      Is();
    }

    method Adopt(sk: Scope, eng: Engine)
      requires Valid() && sk !in engines && Serves(eng, sk) && eng in owned
      requires eng.owned == {} && eng.collapses == map[] && eng.view == map[]
      modifies this`engines, this`decisions, this`views
      ensures Valid() && sk in engines
      ensures decisions == old(decisions)[sk := map[]] && views == old(views)[sk := map[]]
    {
      hide *;
      WasValid();
      engines, decisions, views := engines[sk := eng], decisions[sk := map[]], views[sk := map[]];
      forall k {:trigger engines[k]} | k in engines
        ensures engines[k] in owned && engines[k].owned <= stats && Serves(engines[k], k)
        ensures engines[k].collapses == decisions[k] && engines[k].view == views[k]
      {
      }
      Is();
    }

    method Make(sk: Scope)
      requires Valid() && sk !in engines
      modifies this`engines, this`owned, this`decisions, this`views
      ensures Valid() && stats == old(stats)
      ensures forall x {:trigger x in owned} | x in owned :: x in old(owned) || fresh(x)
      ensures sk in engines && decisions == old(decisions)[sk := map[]] && views == old(views)[sk := map[]]
    {
      hide *;
      var eng := new Engine(opts, infer, sk);
      NewServes(eng, sk);
      Admit(eng);
      Adopt(sk, eng);
    }

    method Have(sk: Scope)
      requires Valid()
      modifies this`engines, this`owned, this`decisions, this`views
      ensures Valid() && stats == old(stats)
      ensures forall x {:trigger x in owned} | x in owned :: x in old(owned) || fresh(x)
      ensures sk in engines && engines[sk] in owned && engines[sk].owned <= stats
      ensures decisions == old(decisions)[sk := DecisionsOf(old(decisions), sk)]
      ensures views == old(views)[sk := ViewOf(old(views), sk)]
    {
      if sk !in engines {
        Make(sk);
      } else {
        PutSame(decisions, sk);
        PutSame(views, sk);
      }
    }

    method Step(sk: Scope, path: string) returns (norm: Prefix, collapsed: bool)
      requires Valid() && sk in engines
      modifies engines[sk], engines[sk].owned
      ensures ValidBut(sk) && fresh(engines[sk].owned - old(engines[sk].owned)) && old(engines[sk].owned) <= stats
      ensures norm == Templated(infer, engines[sk].collapses, Segments(path))
      ensures !collapsed ==> engines[sk].collapses == decisions[sk]
      ensures Learned(infer, Effective(opts), Stage(decisions[sk], views[sk]), path,
                      Stage(engines[sk].collapses, engines[sk].view), collapsed)
    {
      hide Engine.Valid, Effective, Learned, Templated, Segments;
      forall k {:trigger engines[k]} | k in engines && k != sk
        ensures engines[k] != engines[sk] && engines[k].owned !! engines[sk].owned
      {
        engines[sk].Apart(engines[k]);
      }
      norm, collapsed := engines[sk].Normalize(path);
    }

    method Advance(sk: Scope, path: string) returns (norm: Prefix, collapsed: bool)
      requires Valid() && sk in engines
      modifies this`stats, this`decisions, this`views, engines[sk], engines[sk].owned
      ensures Valid() && forall x {:trigger x in stats} | x in stats :: x in old(stats) || fresh(x)
      ensures norm == Templated(infer, decisions[sk], Segments(path))
      ensures !collapsed ==> decisions[sk] == old(decisions)[sk]
      ensures Taught(infer, Effective(opts), old(decisions), old(views), decisions, views, sk, path, collapsed)
    {
      hide *;
      WasValid();
      ghost var d, v := decisions, views;
      norm, collapsed := Step(sk, path);
      LearnedIsTaught(infer, Effective(opts), d, v, Stage(engines[sk].collapses, engines[sk].view), sk, path,
                      collapsed);
      Settle(sk);
    }

    /** Maps a path onto a scope's template space, recording it with that scope's engine alone. */
    method Normalize(sk: Scope, path: string) returns (norm: Prefix, collapsed: bool)
      requires Valid()
      modifies this, owned, stats
      ensures Valid()
      ensures forall x {:trigger x in owned} | x in owned :: x in old(owned) || fresh(x)
      ensures forall x {:trigger x in stats} | x in stats :: x in old(stats) || fresh(x)
      ensures Taught(infer, Effective(opts), old(decisions), old(views), decisions, views, sk, path, collapsed)
      ensures norm == Templated(infer, decisions[sk], Segments(path))
      ensures !collapsed ==> decisions[sk] == DecisionsOf(old(decisions), sk)
    {
      hide Learned, Templated, Segments, Effective;
      ghost var d, v := decisions, views;
      Have(sk);
      norm, collapsed := Advance(sk, path);
      PutTwice(d, sk, DecisionsOf(d, sk), decisions[sk]);
      PutTwice(v, sk, ViewOf(v, sk), views[sk]);
    }

    /** Maps an existing template through a scope's decisions. */
    method Renormalize(sk: Scope, template: string) returns (r: string)
      requires Valid() && sk in decisions
      ensures r == RenormalizedTemplate(infer, decisions[sk], template)
    {
      r := engines[sk].Renormalize(template);
    }
  }
}
