/**
 The scope directory a discovery run publishes into, and the two read paths over
 it (internal/cache/store.go, internal/cache/scope.go).

 The directory is a map from names to contents.  A read or an atomic file
 replacement is one step; what lies between two steps is the business of
 module Publication.
 */
module CacheLayout {
  import opened Wrappers
  import Generation

  const MANIFEST_VERSION: int := 2

  datatype EntityKind = Collection | Global
  datatype Entity = Entity(slug: string, kind: EntityKind)

  /** A manifest's entry for one entity; an empty sha256 or shard means "not recorded". */
  datatype EntityRef = EntityRef(sha256: string, shard: string)

  /** The index.  `rest` stands for every field this package does not decode. */
  datatype Manifest = Manifest(
    version: int,
    generation: string,
    scope: string,
    confirmedAt: int,
    entities: map<Entity, EntityRef>,
    rest: string)

  datatype Shard = Shard(generation: string, slug: string, sha256: string, body: string)

  datatype Dir = Dir(index: Option<Manifest>, shards: map<string, Shard>)

  const EMPTY_DIR := Dir(None, map[])

  // ------------------------------------------------------------------
  // Shard names
  // ------------------------------------------------------------------

  const GLOBAL_PREFIX := "_global_"

  predicate IsAlnum(c: char) { 'A' <= c <= 'Z' || 'a' <= c <= 'z' || '0' <= c <= '9' }

  predicate NoDoubleDot(s: string) {
    forall i :: 0 < i < |s| && s[i] == '.' ==> s[i - 1] != '.'
  }

  predicate ValidSlug(s: string) {
    && s != "" && IsAlnum(s[0])
    && (forall i :: 0 <= i < |s| ==> IsAlnum(s[i]) || s[i] == '.' || s[i] == '_' || s[i] == '-')
    && NoDoubleDot(s)
  }

  function ShardName(e: Entity): string {
    "fields/" + (if e.kind.Global? then GLOBAL_PREFIX else "") + e.slug + ".json"
  }

  function TrimPrefix(s: string, p: string): string { if p <= s then s[|p|..] else s }

  predicate HasSuffix(s: string, p: string) { |p| <= |s| && s[|s| - |p|..] == p }

  predicate ValidShardRef(ref: string) {
    && '\\' !in ref && ':' !in ref && NoDoubleDot(ref)
    && "fields/" <= ref
    && HasSuffix(ref[7..], ".json")
    && ValidSlug(TrimPrefix(ref[7..|ref| - 5], GLOBAL_PREFIX))
  }

  /** The shard file a manifest names for an entity. */
  function ShardRefOf(e: Entity, ref: EntityRef): string {
    if ref.shard == "" then ShardName(e) else ref.shard
  }

  // ------------------------------------------------------------------
  // The read paths
  // ------------------------------------------------------------------

  predicate Readable(scope: string, m: Manifest) {
    && m.version == MANIFEST_VERSION
    && Generation.IsGeneration(m.generation)
    && m.scope == scope
  }

  /** ReadManifest: every failed check is a miss. */
  function ReadManifest(scope: string, d: Dir): Option<Manifest> {
    if d.index.Some? && Readable(scope, d.index.value) then d.index else None
  }

  /** ReadShard's three checks against the index. */
  predicate Matches(m: Manifest, e: Entity, ref: EntityRef, sh: Shard) {
    && sh.generation == m.generation
    && (ref.sha256 != "" ==> sh.sha256 == ref.sha256)
    && (sh.slug != "" ==> sh.slug == e.slug)
  }

  /** ReadShard: the entity's shard, verified against the index it was looked up in. */
  function ReadShard(d: Dir, m: Manifest, e: Entity): Option<Shard> {
    if e !in m.entities then None else
      var ref := m.entities[e];
      var name := ShardRefOf(e, ref);
      if !ValidShardRef(name) || name !in d.shards then None
      else if Matches(m, e, ref, d.shards[name]) then Some(d.shards[name]) else None
  }

  /** A shard is served exactly when the index names its file and its generation, digest and slug are the index's. */
  lemma ServedIff(d: Dir, m: Manifest, e: Entity, sh: Shard)
    ensures ReadShard(d, m, e) == Some(sh) <==>
            && e in m.entities
            && var name := if m.entities[e].shard == "" then ShardName(e) else m.entities[e].shard;
               && ValidShardRef(name) && name in d.shards && d.shards[name] == sh
               && sh.generation == m.generation
               && m.entities[e].sha256 in ["", sh.sha256]
               && sh.slug in ["", e.slug]
  {
  }

  /** The same of the index: a well-formed generation, this scope and this version, or nothing. */
  lemma IndexServedIff(scope: string, d: Dir, m: Manifest)
    ensures ReadManifest(scope, d) == Some(m) <==>
            d.index == Some(m) && m.version == 2 && m.scope == scope && Generation.IsGeneration(m.generation)
  {
  }

  /** A shard name never leaves the fields directory: there is no separator, drive or parent step behind it. */
  lemma NameStaysInside(ref: string)
    requires ValidShardRef(ref)
    ensures "fields/" <= ref && forall i :: 7 <= i < |ref| ==> ref[i] !in ['/', '\\', ':']
    ensures forall i :: 0 < i < |ref| ==> !(ref[i - 1] == '.' && ref[i] == '.')
  {
    var stem := ref[7..|ref| - 5];
    assert ref[7..][|ref| - 12..] == ".json";
    forall i | 7 <= i < |ref|
      ensures ref[i] != '/'
    {
      if i >= |ref| - 5 {
        assert ref[i] == ".json"[i - (|ref| - 5)];
      } else {
        assert ref[i] == stem[i - 7];
        StemIsPlain(stem, i - 7);
      }
    }
  }

  lemma StemIsPlain(stem: string, i: nat)
    requires ValidSlug(TrimPrefix(stem, GLOBAL_PREFIX)) && i < |stem|
    ensures stem[i] != '/'
  {
    if GLOBAL_PREFIX <= stem {
      if i < |GLOBAL_PREFIX| {
        assert stem[i] == GLOBAL_PREFIX[i];
      } else {
        assert stem[i] == TrimPrefix(stem, GLOBAL_PREFIX)[i - |GLOBAL_PREFIX|];
      }
    }
  }

  /** Entities with usable slugs have usable shard names of their own. */
  lemma NamesApart(e: Entity, f: Entity)
    requires ValidSlug(e.slug) && ValidSlug(f.slug)
    ensures ShardName(e) == ShardName(f) <==> e == f
  {
    NameStem(e);
    NameStem(f);
    if Stem(e) == Stem(f) {
      StemOf(e);
      StemOf(f);
    }
  }

  function Stem(e: Entity): string { (if e.kind.Global? then GLOBAL_PREFIX else "") + e.slug }

  lemma NameStem(e: Entity)
    ensures |ShardName(e)| >= 12 && ShardName(e)[7..|ShardName(e)| - 5] == Stem(e)
  {
    assert ShardName(e) == "fields/" + Stem(e) + ".json";
  }

  lemma StemOf(e: Entity)
    requires ValidSlug(e.slug)
    ensures Stem(e) != "" && (Stem(e)[0] == '_' <==> e.kind.Global?)
    ensures e.slug == if e.kind.Global? then Stem(e)[|GLOBAL_PREFIX|..] else Stem(e)
  {
    assert GLOBAL_PREFIX[0] == '_';
  }

  // ------------------------------------------------------------------
  // What one discovery run publishes
  // ------------------------------------------------------------------

  datatype DiscoverySet = DiscoverySet(generation: string, manifest: Manifest, shards: map<string, Shard>)

  /** The checks WriteSet makes before it touches the directory. */
  predicate Publishable(scope: string, run: DiscoverySet) {
    && Generation.IsGeneration(run.generation)
    && run.manifest.version == MANIFEST_VERSION
    && run.manifest.generation == run.generation
    && run.manifest.scope == scope
  }

  /** Discovery's half of the bargain: every shard carries the run's generation. */
  predicate Stamped(run: DiscoverySet) {
    forall n :: n in run.shards ==> run.shards[n].generation == run.generation
  }

  /** Less is needed for safety: no shard that can be written carries the generation of another run. */
  predicate WellStamped(run: DiscoverySet) {
    forall n :: n in run.shards && ValidShardRef(n) ==>
      run.shards[n].generation == run.generation || !Generation.IsGeneration(run.shards[n].generation)
  }

  /** Every entity the index names has a shard in the set that the index accepts. */
  predicate Complete(run: DiscoverySet) {
    && (forall n :: n in run.shards ==> ValidShardRef(n))
    && forall e :: e in run.manifest.entities ==>
         var name := ShardRefOf(e, run.manifest.entities[e]);
         name in run.shards && Matches(run.manifest, e, run.manifest.entities[e], run.shards[name])
  }

  /** The same index, but for confirmed_at and what lies outside the entities. */
  predicate SameIndex(m: Manifest, m': Manifest) {
    m.(confirmedAt := 0, rest := "") == m'.(confirmedAt := 0, rest := "")
  }
}
