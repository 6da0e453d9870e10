/** `emit` and `close_all_emitters` (transform/substance_transform.py): one
    output file per resource type, opened on the first record of that type,
    and a run-wide set of identities already written, so that each identity
    is written at most once. */
module Emission {
  import opened Common
  import opened Resources

  /** The file `<outputPath>/<Type>.ndjson`: the records written to it, in
      order, and whether it is still open. */
  datatype Stream = Stream(path: string, written: seq<Resource>, isOpen: bool)

  /** `EMITTERS` and `ALREADY_EMITTED`. */
  datatype EmitterState = EmitterState(streams: map<string, Stream>, alreadyEmitted: set<Identity>)

  const Initial: EmitterState := EmitterState(map[], {})

  function StreamPath(outputPath: string, resourceType: string): string {
    outputPath + "/" + resourceType + ".ndjson"
  }

  /** The records in the stream of type `t` (none when it was never opened). */
  function Written(s: EmitterState, t: string): seq<Resource> {
    if t in s.streams then s.streams[t].written else []
  }

  /** The state after `emit(output_path, r)`. */
  function AfterEmit(s: EmitterState, outputPath: string, r: Resource): EmitterState {
    var id := IdentityOf(r);
    if id in s.alreadyEmitted then s
    else
      var t := r.resourceType;
      var stream := if t in s.streams then s.streams[t] else Stream(StreamPath(outputPath, t), [], true);
      EmitterState(s.streams[t := stream.(written := stream.written + [r])], s.alreadyEmitted + {id})
  }

  /** `emit` marks the identity as written; a record whose identity was
      written before changes nothing; otherwise it is appended to the
      stream of its type, which is opened at `<outputPath>/<Type>.ndjson`
      when it does not exist yet, and no other stream changes. */
  lemma AfterEmitSpec(s: EmitterState, outputPath: string, r: Resource)
    ensures var s' := AfterEmit(s, outputPath, r);
      && s'.alreadyEmitted == s.alreadyEmitted + {IdentityOf(r)}
      && (IdentityOf(r) in s.alreadyEmitted ==> s' == s)
      && Written(s', r.resourceType) ==
           Written(s, r.resourceType) + (if IdentityOf(r) in s.alreadyEmitted then [] else [r])
      && (forall t :: t != r.resourceType ==>
            (t in s'.streams <==> t in s.streams) && (t in s.streams ==> s'.streams[t] == s.streams[t]))
      && (r.resourceType in s'.streams <==> r.resourceType in s.streams || IdentityOf(r) !in s.alreadyEmitted)
      && (r.resourceType in s.streams ==>
            s'.streams[r.resourceType].path == s.streams[r.resourceType].path &&
            s'.streams[r.resourceType].isOpen == s.streams[r.resourceType].isOpen)
      && (r.resourceType !in s.streams && r.resourceType in s'.streams ==>
            s'.streams[r.resourceType].path == StreamPath(outputPath, r.resourceType) &&
            s'.streams[r.resourceType].isOpen)
  {
  }

  /** The state after emitting `rs` in order. */
  function AfterEmitAll(s: EmitterState, outputPath: string, rs: seq<Resource>): EmitterState
    decreases |rs|
  {
    if rs == [] then s
    else AfterEmit(AfterEmitAll(s, outputPath, rs[..|rs| - 1]), outputPath, rs[|rs| - 1])
  }

  /** The state after `close_all_emitters()`: every opened file is closed,
      nothing else changes. */
  function Closed(s: EmitterState): (s': EmitterState)
    ensures s'.alreadyEmitted == s.alreadyEmitted && s'.streams.Keys == s.streams.Keys
    ensures forall t :: t in s.streams ==> s'.streams[t] == s.streams[t].(isOpen := false)
  {
    EmitterState(map t | t in s.streams :: s.streams[t].(isOpen := false), s.alreadyEmitted)
  }

  function Ids(rs: seq<Resource>): set<Identity> {
    set r | r in rs :: IdentityOf(r)
  }

  /** The records of `rs` of type `t`, in order. */
  function OfType(rs: seq<Resource>, t: string): seq<Resource> {
    if rs == [] then []
    else OfType(rs[..|rs| - 1], t) + (if rs[|rs| - 1].resourceType == t then [rs[|rs| - 1]] else [])
  }

  lemma {:induction false} OfTypeMembers(rs: seq<Resource>, t: string, x: Resource)
    ensures x in OfType(rs, t) <==> x in rs && x.resourceType == t
    decreases |rs|
  {
    if rs != [] {
      OfTypeMembers(rs[..|rs| - 1], t, x);
      assert rs == rs[..|rs| - 1] + [rs[|rs| - 1]];
    }
  }

  /** Filtering by type distributes over concatenation. */
  lemma {:induction false} OfTypeAppend(a: seq<Resource>, b: seq<Resource>, t: string)
    ensures OfType(a + b, t) == OfType(a, t) + OfType(b, t)
    decreases |b|
  {
    if b == [] {
      assert a + b == a;
    } else {
      OfTypeAppend(a, b[..|b| - 1], t);
      assert (a + b)[..|a + b| - 1] == a + b[..|b| - 1];
    }
  }

  /** A sequence holding only records of type `t` is its own filter. */
  lemma {:induction false} OfTypeAll(rs: seq<Resource>, t: string)
    requires forall i :: 0 <= i < |rs| ==> rs[i].resourceType == t
    ensures OfType(rs, t) == rs
    decreases |rs|
  {
    if rs != [] {
      OfTypeAll(rs[..|rs| - 1], t);
    }
  }

  /** A sequence holding no record of type `t` filters to nothing. */
  lemma {:induction false} OfTypeNone(rs: seq<Resource>, t: string)
    requires forall i :: 0 <= i < |rs| ==> rs[i].resourceType != t
    ensures OfType(rs, t) == []
    decreases |rs|
  {
    if rs != [] {
      OfTypeNone(rs[..|rs| - 1], t);
    }
  }

  /** The records of `rs` whose identity is neither in `seen` nor carried by
      an earlier record: the first occurrence of each new identity. */
  function Fresh(rs: seq<Resource>, seen: set<Identity>): seq<Resource> {
    if rs == [] then []
    else
      var init, r := rs[..|rs| - 1], rs[|rs| - 1];
      Fresh(init, seen) + (if IdentityOf(r) in seen + Ids(init) then [] else [r])
  }

  predicate DistinctIds(rs: seq<Resource>) {
    forall i, j :: 0 <= i < j < |rs| ==> IdentityOf(rs[i]) != IdentityOf(rs[j])
  }

  /** The invariant of the emitter: each opened stream holds at least one
      record, only records of its own type, each identity once; and the set
      of written identities is exactly what the streams hold. */
  ghost predicate Consistent(s: EmitterState) {
    && (forall t :: t in s.streams ==> s.streams[t].written != [])
    && (forall t, r :: t in s.streams && r in s.streams[t].written ==> r.resourceType == t)
    && (forall t :: t in s.streams ==> DistinctIds(s.streams[t].written))
    && (forall t :: t in s.streams ==> Ids(s.streams[t].written) == set id | id in s.alreadyEmitted && id.resourceType == t)
    && (forall id :: id in s.alreadyEmitted ==> id.resourceType in s.streams)
  }

  lemma InitialConsistent()
    ensures Consistent(Initial)
  {
  }

  lemma IdsAppend(rs: seq<Resource>, r: Resource)
    ensures Ids(rs + [r]) == Ids(rs) + {IdentityOf(r)}
  {
    assert forall x :: x in rs + [r] <==> x in rs || x == r;
  }

  /** `emit` keeps the invariant. */
  lemma AfterEmitConsistent(s: EmitterState, outputPath: string, r: Resource)
    requires Consistent(s)
    ensures Consistent(AfterEmit(s, outputPath, r))
  {
    var id := IdentityOf(r);
    if id !in s.alreadyEmitted {
      var t := r.resourceType;
      var s' := AfterEmit(s, outputPath, r);
      assert t !in s.streams ==> Written(s, t) == [];
      IdsAppend(Written(s, t), r);
      assert Ids(s'.streams[t].written) == Ids(Written(s, t)) + {id};
      forall x | x in Written(s, t) ensures IdentityOf(x) != id {
        assert IdentityOf(x) in Ids(Written(s, t));
      }
      assert forall x :: x in s'.streams[t].written <==> x in Written(s, t) || x == r;
    }
  }

  lemma AfterEmitAllConsistent(s: EmitterState, outputPath: string, rs: seq<Resource>)
    requires Consistent(s)
    ensures Consistent(AfterEmitAll(s, outputPath, rs))
    decreases |rs|
  {
    if rs != [] {
      AfterEmitAllConsistent(s, outputPath, rs[..|rs| - 1]);
      AfterEmitConsistent(AfterEmitAll(s, outputPath, rs[..|rs| - 1]), outputPath, rs[|rs| - 1]);
    }
  }

  /** Emitting `a` then `b` is emitting `a + b`. */
  lemma {:induction false} AfterEmitAllAppend(s: EmitterState, outputPath: string, a: seq<Resource>, b: seq<Resource>)
    ensures AfterEmitAll(s, outputPath, a + b) == AfterEmitAll(AfterEmitAll(s, outputPath, a), outputPath, b)
    decreases |b|
  {
    if b == [] {
      assert a + b == a;
    } else {
      AfterEmitAllAppend(s, outputPath, a, b[..|b| - 1]);
      assert (a + b)[..|a + b| - 1] == a + b[..|b| - 1];
      assert (a + b)[|a + b| - 1] == b[|b| - 1];
    }
  }

  /** An identity of type `t` is carried by a record of `rs` exactly when it
      is carried by a record of type `t`. */
  lemma IdsOfType(rs: seq<Resource>, t: string, id: Identity)
    requires id.resourceType == t
    ensures id in Ids(rs) <==> id in Ids(OfType(rs, t))
  {
    if id in Ids(rs) {
      var r :| r in rs && IdentityOf(r) == id;
      OfTypeMembers(rs, t, r);
    }
    if id in Ids(OfType(rs, t)) {
      var r :| r in OfType(rs, t) && IdentityOf(r) == id;
      OfTypeMembers(rs, t, r);
    }
  }

  /** The identities a sequence of emits marks as written. */
  lemma {:induction false} AfterEmitAllIds(s: EmitterState, outputPath: string, rs: seq<Resource>)
    ensures AfterEmitAll(s, outputPath, rs).alreadyEmitted == s.alreadyEmitted + Ids(rs)
    decreases |rs|
  {
    if rs != [] {
      var init, r := rs[..|rs| - 1], rs[|rs| - 1];
      assert rs == init + [r];
      AfterEmitAllIds(s, outputPath, init);
      IdsAppend(init, r);
    }
  }

  /** The last record of `rs`, seen from the records of type `t`. */
  lemma FreshOfTypeStep(rs: seq<Resource>, t: string, seen: set<Identity>)
    requires rs != []
    ensures var init, r := rs[..|rs| - 1], rs[|rs| - 1];
      Fresh(OfType(rs, t), seen) ==
      Fresh(OfType(init, t), seen) + (if r.resourceType == t && IdentityOf(r) !in seen + Ids(init) then [r] else [])
  {
    var init, r := rs[..|rs| - 1], rs[|rs| - 1];
    var ofT := OfType(init, t);
    if r.resourceType == t {
      assert OfType(rs, t) == ofT + [r];
      assert (ofT + [r])[..|ofT|] == ofT;
      IdsOfType(init, t, IdentityOf(r));
    } else {
      assert OfType(rs, t) == ofT + [];
      assert ofT + [] == ofT;
      assert Fresh(ofT, seen) + [] == Fresh(ofT, seen);
    }
  }

  /** One emit, seen from the stream of type `t`. */
  lemma AfterEmitAt(s: EmitterState, outputPath: string, r: Resource, t: string)
    ensures Written(AfterEmit(s, outputPath, r), t) ==
      Written(s, t) + (if r.resourceType == t && IdentityOf(r) !in s.alreadyEmitted then [r] else [])
    ensures t in AfterEmit(s, outputPath, r).streams <==>
      t in s.streams || (r.resourceType == t && IdentityOf(r) !in s.alreadyEmitted)
  {
    AfterEmitSpec(s, outputPath, r);
    if r.resourceType != t {
      assert Written(s, t) + [] == Written(s, t);
    }
  }

  /** The last emit of a sequence, seen from the stream of type `t`. */
  lemma AfterEmitAllWrittenStep(s: EmitterState, outputPath: string, rs: seq<Resource>, t: string)
    requires rs != []
    ensures var prev, r := AfterEmitAll(s, outputPath, rs[..|rs| - 1]), rs[|rs| - 1];
      Written(AfterEmitAll(s, outputPath, rs), t) ==
      Written(prev, t) + (if r.resourceType == t && IdentityOf(r) !in prev.alreadyEmitted then [r] else [])
  {
    AfterEmitAt(AfterEmitAll(s, outputPath, rs[..|rs| - 1]), outputPath, rs[|rs| - 1], t);
  }

  /** What a sequence of emits writes: to the stream of each type, the
      first occurrence of every identity of that type not written before,
      in order. */
  lemma {:induction false} AfterEmitAllWritten(s: EmitterState, outputPath: string, rs: seq<Resource>, t: string)
    ensures Written(AfterEmitAll(s, outputPath, rs), t) == Written(s, t) + Fresh(OfType(rs, t), s.alreadyEmitted)
    decreases |rs|
  {
    if rs == [] {
      assert Written(s, t) + [] == Written(s, t);
    } else {
      var init, r := rs[..|rs| - 1], rs[|rs| - 1];
      AfterEmitAllWritten(s, outputPath, init, t);
      AfterEmitAllIds(s, outputPath, init);
      AfterEmitAllWrittenStep(s, outputPath, rs, t);
      FreshOfTypeStep(rs, t, s.alreadyEmitted);
      var before := Fresh(OfType(init, t), s.alreadyEmitted);
      var extra := if r.resourceType == t && IdentityOf(r) !in s.alreadyEmitted + Ids(init) then [r] else [];
      assert Written(s, t) + before + extra == Written(s, t) + (before + extra);
    }
  }

  /** A stream exists after a sequence of emits exactly when it existed
      before or something new of its type was written. */
  lemma {:induction false} AfterEmitAllOpened(s: EmitterState, outputPath: string, rs: seq<Resource>, t: string)
    ensures t in AfterEmitAll(s, outputPath, rs).streams <==>
      t in s.streams || Fresh(OfType(rs, t), s.alreadyEmitted) != []
    decreases |rs|
  {
    if rs != [] {
      var init, r := rs[..|rs| - 1], rs[|rs| - 1];
      var prev := AfterEmitAll(s, outputPath, init);
      AfterEmitAllOpened(s, outputPath, init, t);
      AfterEmitAllIds(s, outputPath, init);
      AfterEmitAt(prev, outputPath, r, t);
      FreshOfTypeStep(rs, t, s.alreadyEmitted);
    }
  }

  /** The first occurrences carry distinct identities. */
  lemma {:induction false} FreshDistinct(rs: seq<Resource>, seen: set<Identity>)
    ensures DistinctIds(Fresh(rs, seen))
    ensures Ids(Fresh(rs, seen)) == Ids(rs) - seen
    decreases |rs|
  {
    if rs != [] {
      var init, r := rs[..|rs| - 1], rs[|rs| - 1];
      assert rs == init + [r];
      FreshDistinct(init, seen);
      IdsAppend(init, r);
      var f := Fresh(init, seen);
      if IdentityOf(r) in seen + Ids(init) {
        assert Fresh(rs, seen) == f + [];
        assert f + [] == f;
      } else {
        assert Fresh(rs, seen) == f + [r];
        IdsAppend(f, r);
        forall i | 0 <= i < |f| ensures IdentityOf(f[i]) != IdentityOf(r) {
          assert IdentityOf(f[i]) in Ids(f);
        }
      }
    }
  }

  /** The first record of a sequence is always fresh when nothing was seen. */
  lemma {:induction false} FreshEmpty(rs: seq<Resource>)
    ensures Fresh(rs, {}) == [] <==> rs == []
    decreases |rs|
  {
    if rs != [] {
      FreshEmpty(rs[..|rs| - 1]);
    }
  }

  /** At most once, and exactly once: after a run that starts with nothing
      written, the stream of a type exists exactly when some record of that
      type was emitted, and it holds each identity of that type exactly
      once, as its first emitted record. */
  lemma AfterEmitAllOnce(outputPath: string, rs: seq<Resource>, t: string)
    ensures t in AfterEmitAll(Initial, outputPath, rs).streams <==> exists r :: r in rs && r.resourceType == t
    ensures Written(AfterEmitAll(Initial, outputPath, rs), t) == Fresh(OfType(rs, t), {})
    ensures DistinctIds(Written(AfterEmitAll(Initial, outputPath, rs), t))
    ensures Ids(Written(AfterEmitAll(Initial, outputPath, rs), t)) == Ids(OfType(rs, t))
  {
    AfterEmitAllWritten(Initial, outputPath, rs, t);
    AfterEmitAllOpened(Initial, outputPath, rs, t);
    FreshDistinct(OfType(rs, t), {});
    FreshEmpty(OfType(rs, t));
    if exists r :: r in rs && r.resourceType == t {
      var r :| r in rs && r.resourceType == t;
      OfTypeMembers(rs, t, r);
    } else if OfType(rs, t) != [] {
      OfTypeMembers(rs, t, OfType(rs, t)[0]);
    }
  }

  /** The text of a stream: each record's JSON followed by one newline. */
  function Ndjson(rs: seq<Resource>, toJson: Resource -> string): string {
    if rs == [] then "" else Ndjson(rs[..|rs| - 1], toJson) + toJson(rs[|rs| - 1]) + "\n"
  }

  function Count(s: string, c: char): nat {
    if s == [] then 0 else Count(s[..|s| - 1], c) + (if s[|s| - 1] == c then 1 else 0)
  }

  lemma {:induction false} CountAppend(a: string, b: string, c: char)
    ensures Count(a + b, c) == Count(a, c) + Count(b, c)
    decreases |b|
  {
    if b == [] {
      assert a + b == a;
    } else {
      CountAppend(a, b[..|b| - 1], c);
      assert (a + b)[..|a + b| - 1] == a + b[..|b| - 1];
    }
  }

  /** When the JSON text of a record never holds a newline (the serialiser
      writes compact JSON), a stream of `n` records holds exactly `n`
      newlines and, when not empty, ends with one. */
  lemma {:induction false} NdjsonLines(rs: seq<Resource>, toJson: Resource -> string)
    requires forall r :: r in rs ==> Count(toJson(r), '\n') == 0
    ensures Count(Ndjson(rs, toJson), '\n') == |rs|
    ensures rs != [] ==> Ndjson(rs, toJson)[|Ndjson(rs, toJson)| - 1] == '\n'
    decreases |rs|
  {
    if rs != [] {
      var init := rs[..|rs| - 1];
      NdjsonLines(init, toJson);
      CountAppend(Ndjson(init, toJson), toJson(rs[|rs| - 1]), '\n');
      CountAppend(Ndjson(init, toJson) + toJson(rs[|rs| - 1]), "\n", '\n');
      assert Count("\n", '\n') == 1 by {
        assert "\n"[..0] == "";
      }
    }
  }

  /** The emitter: the two module-level registries, as fields. */
  class Emitter {
    const outputPath: string
    var streams: map<string, Stream>
    var alreadyEmitted: set<Identity>

    function State(): EmitterState
      reads this
    {
      EmitterState(streams, alreadyEmitted)
    }

    ghost predicate Valid()
      reads this
    {
      Consistent(State())
    }

    /** No stream has been closed yet: writing is still possible. */
    predicate Writable()
      reads this
    {
      forall t :: t in streams ==> streams[t].isOpen
    }

    constructor (outputPath: string)
      ensures this.outputPath == outputPath
      ensures State() == Initial && Valid() && Writable()
    {
      this.outputPath := outputPath;
      streams := map[];
      alreadyEmitted := {};
    }

    /** `emit(output_path, resource)`; the source raises when it writes to
        a file closed by `CloseAll`, which callers do not do. */
    method Emit(r: Resource)
      requires Valid() && Writable()
      modifies this
      ensures Valid() && Writable()
      ensures State() == AfterEmit(old(State()), outputPath, r)
    {
      AfterEmitConsistent(State(), outputPath, r);
      ghost var before := State();
      var path := IdentityOf(r);
      if path !in alreadyEmitted {
        if r.resourceType !in streams {
          streams := streams[r.resourceType := Stream(StreamPath(outputPath, r.resourceType), [], true)];
        }
        var stream := streams[r.resourceType];
        streams := streams[r.resourceType := stream.(written := stream.written + [r])];
      }
      alreadyEmitted := alreadyEmitted + {path};
      assert State() == AfterEmit(before, outputPath, r);
    }

    /** `close_all_emitters()` */
    method CloseAll()
      requires Valid()
      modifies this
      ensures Valid()
      ensures State() == Closed(old(State()))
    {
      var pending := streams.Keys;
      while pending != {}
        invariant pending <= streams.Keys && streams.Keys == old(streams).Keys
        invariant alreadyEmitted == old(alreadyEmitted)
        invariant forall t :: t in streams ==>
          streams[t] == if t in pending then old(streams)[t] else old(streams)[t].(isOpen := false)
        decreases pending
      {
        var t :| t in pending;
        streams := streams[t := streams[t].(isOpen := false)];
        pending := pending - {t};
      }
      assert streams == Closed(old(State())).streams;
    }
  }
}
