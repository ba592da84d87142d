/** `GenerationsService` (backend/src/generations/generations.service.ts): the
    record lifecycle of one test-generation request over an in-memory store.
    Ids and timestamps come from the caller (the database assigns them in the
    source); the AI provider is a parameter, so either implementation fits. */
module Generations {
  import opened Wrappers
  import opened Text
  import opened Errors
  import opened Validation
  import opened Provider
  import opened GenerationDto

  datatype Status = Pending | Completed | Failed

  /** A stored `generation` row. */
  datatype Generation = Generation(
    id: string,
    userId: string,
    inputCode: string,
    language: string,
    status: Status,
    generatedTests: Option<string>,
    createdAt: nat,
    updatedAt: nat)

  /** The fields the service hands back: everything but the owner. */
  datatype GenerationView = GenerationView(
    id: string,
    inputCode: string,
    language: string,
    generatedTests: Option<string>,
    status: Status,
    createdAt: nat,
    updatedAt: nat)

  function View(g: Generation): GenerationView {
    GenerationView(g.id, g.inputCode, g.language, g.generatedTests, g.status, g.createdAt, g.updatedAt)
  }

  function Ids(store: seq<Generation>): set<string> {
    set g | g in store :: g.id
  }

  /** The database's primary-key constraint. */
  predicate UniqueIds(store: seq<Generation>) {
    forall i, j :: 0 <= i < j < |store| ==> store[i].id != store[j].id
  }

  /** Every record has finished, and carries tests exactly when it completed. */
  predicate Settled(store: seq<Generation>) {
    forall g :: g in store ==> g.status != Pending && (g.status == Completed <==> g.generatedTests.Some?)
  }

  // ---------------------------------------------------------------- create

  /** The row `create` inserts before calling the provider. */
  function PendingRecord(userId: string, dto: CreateGenerationDto, id: string, now: nat): (g: Generation)
    ensures g.status == Pending && g.generatedTests == None
    ensures g.id == id && g.userId == userId && g.inputCode == dto.code
    ensures g.language == Normalize(dto.language) && Normalize(g.language) == g.language
    ensures g.createdAt == now && g.updatedAt == now
  {
    NormalizeIdempotent(dto.language);
    Generation(id, userId, dto.code, Normalize(dto.language), Pending, None, now, now)
  }

  /** The two `update` calls of `create`. */
  datatype Outcome = CompleteWith(tests: string) | MarkFailed

  /** `prisma.generation.update({ where: { id }, data })`: the row with that id
      gets the new status (and tests, on completion) and a new `updatedAt`. */
  function UpdateById(store: seq<Generation>, id: string, outcome: Outcome, now: nat): (r: seq<Generation>)
    ensures |r| == |store|
    ensures forall i :: 0 <= i < |store| && store[i].id != id ==> r[i] == store[i]
    ensures forall i :: 0 <= i < |store| && store[i].id == id ==>
              && r[i] == store[i].(status := r[i].status, generatedTests := r[i].generatedTests, updatedAt := now)
              && (outcome.CompleteWith? ==> r[i].status == Completed && r[i].generatedTests == Some(outcome.tests))
              && (outcome.MarkFailed? ==> r[i].status == Failed && r[i].generatedTests == store[i].generatedTests)
  {
    seq(|store|, i requires 0 <= i < |store| =>
      if store[i].id != id then store[i] else Applied(store[i], outcome, now))
  }

  /** The row an update of `g` writes. */
  function Applied(g: Generation, outcome: Outcome, now: nat): Generation {
    match outcome
    case CompleteWith(t) => g.(status := Completed, generatedTests := Some(t), updatedAt := now)
    case MarkFailed => g.(status := Failed, updatedAt := now)
  }

  /** Updating a freshly appended row by its id rewrites that row only. */
  lemma UpdateAppendedRow(store: seq<Generation>, g: Generation, outcome: Outcome, now: nat)
    requires g.id !in Ids(store)
    ensures UpdateById(store + [g], g.id, outcome, now) == store + [Applied(g, outcome, now)]
  {
    var r := UpdateById(store + [g], g.id, outcome, now);
    forall i | 0 <= i < |store| ensures r[i] == store[i] {
      assert store[i] in store;
      assert (store + [g])[i] == store[i];
    }
  }

  const GenericFailureMessage: string := "Test generation failed. Please try again later."

  /** The `catch` block of `create`: the two HTTP categories are re-thrown,
      anything else becomes a generic 503. */
  function RethrowFromCreate(e: Exception): (r: Exception)
    ensures IsPassThrough(r)
    ensures IsPassThrough(e) ==> r == e
    ensures !IsPassThrough(e) ==> r == ServiceUnavailable(GenericFailureMessage)
  {
    if IsPassThrough(e) then e else ServiceUnavailable(GenericFailureMessage)
  }

  /** The store after `create` and what `create` returns or throws. */
  datatype CreateOutcome = CreateOutcome(store: seq<Generation>, result: Result<GenerationView, Exception>)

  /** `create(userId, dto)`: insert a pending row, call the provider with the
      raw code and language, then mark the row completed (returning it without
      the owner) or failed (re-throwing). `id` is the fresh key the database
      assigns; `createdAt` and `updatedAt` are the clock at insert and update. */
  function Create(store: seq<Generation>, userId: string, dto: CreateGenerationDto, id: string,
                  createdAt: nat, updatedAt: nat,
                  p: Provider, send: ChatRequest -> ProviderResult): (o: CreateOutcome)
    requires id !in Ids(store)
    ensures |o.store| == |store| + 1 && o.store[..|store|] == store
    ensures var g := o.store[|store|];
            && g.id == id && g.userId == userId && g.inputCode == dto.code
            && g.language == Normalize(dto.language)
            && g.createdAt == createdAt && g.updatedAt == updatedAt
            && g.status != Pending
            && (g.status == Completed <==> g.generatedTests.Some?)
            && (o.result.Success? <==> g.status == Completed)
            && (o.result.Success? ==> o.result.value == View(g))
    ensures var ai := GenerateUnitTests(p, dto.code, dto.language, send);
            && (ai.Success? ==> o.result.Success? && o.result.value.generatedTests == Some(ai.value))
            && (ai.Failure? ==> o.result == Failure(ai.error))
  {
    var pending := PendingRecord(userId, dto, id, createdAt);
    var ai := GenerateUnitTests(p, dto.code, dto.language, send);
    var outcome := if ai.Success? then CompleteWith(ai.value) else MarkFailed;
    var updated := UpdateById(store + [pending], id, outcome, updatedAt);
    UpdateAppendedRow(store, pending, outcome, updatedAt);
    assert updated[..|store|] == store;
    match ai
    case Success(_) => CreateOutcome(updated, Success(View(updated[|store|])))
    case Failure(e) => CreateOutcome(updated, Failure(RethrowFromCreate(e)))
  }

  /** Validation happens inside the provider call, after the insert: rejected
      input still leaves one new, failed row behind, and the 400 reaches the
      caller unchanged. */
  lemma RejectedInputLeavesFailedRecord(store: seq<Generation>, userId: string, dto: CreateGenerationDto,
                                        id: string, createdAt: nat, updatedAt: nat,
                                        p: Provider, send: ChatRequest -> ProviderResult)
    requires id !in Ids(store)
    requires ValidateInput(dto.code, dto.language).Some?
    ensures var o := Create(store, userId, dto, id, createdAt, updatedAt, p, send);
            && |o.store| == |store| + 1
            && o.store[|store|].status == Failed && o.store[|store|].generatedTests == None
            && o.result == Failure(BadRequest(ValidateInput(dto.code, dto.language).value.Message()))
  {
  }

  /** `create` keeps primary keys unique and leaves every row settled. */
  lemma CreatePreservesInvariants(store: seq<Generation>, userId: string, dto: CreateGenerationDto,
                                  id: string, createdAt: nat, updatedAt: nat,
                                  p: Provider, send: ChatRequest -> ProviderResult)
    requires id !in Ids(store) && UniqueIds(store) && Settled(store)
    ensures var o := Create(store, userId, dto, id, createdAt, updatedAt, p, send);
            UniqueIds(o.store) && Settled(o.store)
  {
    var o := Create(store, userId, dto, id, createdAt, updatedAt, p, send);
    forall i, j | 0 <= i < j < |o.store| ensures o.store[i].id != o.store[j].id {
      if j == |store| {
        assert o.store[i] == store[i];
        assert store[i] in store;
      } else {
        assert o.store[i] == store[i] && o.store[j] == store[j];
      }
    }
    forall g | g in o.store
      ensures g.status != Pending && (g.status == Completed <==> g.generatedTests.Some?)
    {
      var k :| 0 <= k < |o.store| && o.store[k] == g;
      if k < |store| {
        assert o.store[k] == store[k];
        assert store[k] in store;
      }
    }
  }

  /** The provider is asked one thing: the request built from the caller's
      code and language exactly as submitted (not the stored, normalized
      label). Two providers that answer that request alike give identical
      outcomes. */
  lemma ProviderSeesRawInput(store: seq<Generation>, userId: string, dto: CreateGenerationDto,
                             id: string, createdAt: nat, updatedAt: nat,
                             p: Provider, send1: ChatRequest -> ProviderResult,
                             send2: ChatRequest -> ProviderResult)
    requires id !in Ids(store) && Configured(p)
    requires send1(BuildRequest(p, dto.code, dto.language)) == send2(BuildRequest(p, dto.code, dto.language))
    ensures BuildRequest(p, dto.code, dto.language).messages[1].content == dto.code
    ensures Create(store, userId, dto, id, createdAt, updatedAt, p, send1)
            == Create(store, userId, dto, id, createdAt, updatedAt, p, send2)
  {
    assert GenerateUnitTests(p, dto.code, dto.language, send1)
           == GenerateUnitTests(p, dto.code, dto.language, send2);
  }

  // ------------------------------------------------------------- findAllByUser

  /** The rows owned by `userId`, in store order (`where: { userId }`). */
  function OwnedBy(store: seq<Generation>, userId: string): (r: seq<Generation>)
    ensures forall g :: multiset(r)[g] == if g.userId == userId then multiset(store)[g] else 0
  {
    if |store| == 0 then []
    else
      var rest := OwnedBy(store[1..], userId);
      assert store == [store[0]] + store[1..];
      if store[0].userId == userId then [store[0]] + rest else rest
  }

  function Views(s: seq<Generation>): (r: seq<GenerationView>)
    ensures |r| == |s|
    ensures forall i :: 0 <= i < |s| ==> r[i] == View(s[i])
  {
    seq(|s|, i requires 0 <= i < |s| => View(s[i]))
  }

  /** `orderBy: { createdAt: 'desc' }`. */
  predicate NewestFirst(vs: seq<GenerationView>) {
    forall i, j :: 0 <= i < j < |vs| ==> vs[i].createdAt >= vs[j].createdAt
  }

  /** A row no older than the head of a newest-first list can go in front of it. */
  lemma ConsNewestFirst(x: GenerationView, rest: seq<GenerationView>)
    requires NewestFirst(rest)
    requires |rest| > 0 ==> rest[0].createdAt <= x.createdAt
    ensures NewestFirst([x] + rest)
  {
  }

  /** Puts `v` before the first row that is not newer than it. */
  function InsertNewestFirst(v: GenerationView, vs: seq<GenerationView>): (r: seq<GenerationView>)
    requires NewestFirst(vs)
    ensures NewestFirst(r)
    ensures multiset(r) == multiset(vs) + multiset{v}
    ensures r[0] == v || r[0] == vs[0]
  {
    if |vs| == 0 || vs[0].createdAt <= v.createdAt then [v] + vs
    else
      var rest := InsertNewestFirst(v, vs[1..]);
      assert vs == [vs[0]] + vs[1..];
      assert rest[0].createdAt <= vs[0].createdAt;
      ConsNewestFirst(vs[0], rest);
      [vs[0]] + rest
  }

  /** A permutation of `vs` that is newest first. */
  function SortNewestFirst(vs: seq<GenerationView>): (r: seq<GenerationView>)
    ensures NewestFirst(r)
    ensures multiset(r) == multiset(vs)
  {
    if |vs| == 0 then []
    else
      assert vs == [vs[0]] + vs[1..];
      InsertNewestFirst(vs[0], SortNewestFirst(vs[1..]))
  }

  /** `findAllByUser(userId)`: the owner's rows, without the owner field,
      newest first. */
  function FindAllByUser(store: seq<Generation>, userId: string): (r: seq<GenerationView>)
    ensures NewestFirst(r)
    ensures multiset(r) == multiset(Views(OwnedBy(store, userId)))
  {
    SortNewestFirst(Views(OwnedBy(store, userId)))
  }

  /** The listing holds exactly the owner's rows: each view comes from a row of
      `userId`, and each row of `userId` appears. */
  lemma FindAllByUserIsExactlyOwned(store: seq<Generation>, userId: string)
    ensures forall v :: v in FindAllByUser(store, userId) <==>
              exists g :: g in store && g.userId == userId && View(g) == v
  {
    var owned := OwnedBy(store, userId);
    var r := FindAllByUser(store, userId);
    forall v ensures v in r <==> exists g :: g in store && g.userId == userId && View(g) == v {
      if v in r {
        assert v in multiset(Views(owned));
        var k :| 0 <= k < |owned| && Views(owned)[k] == v;
        var g := owned[k];
        assert multiset(owned)[g] > 0;
      }
      if g :| g in store && g.userId == userId && View(g) == v {
        assert multiset(owned)[g] > 0;
        var k :| 0 <= k < |owned| && owned[k] == g;
        assert Views(owned)[k] == v;
        assert v in multiset(r);
      }
    }
  }

  // ------------------------------------------------------------------ findOne

  const NotFoundMessage: string := "Generation not found"

  /** `findOne(id, userId)`: the first row with that id and that owner
      (`findFirst({ where: { id, userId } })`), or a 404. */
  function FindOne(store: seq<Generation>, id: string, userId: string): (r: Result<GenerationView, Exception>)
    ensures r.Success? ==> exists g :: g in store && g.id == id && g.userId == userId && r.value == View(g)
    ensures r.Failure? <==> forall g :: g in store ==> !(g.id == id && g.userId == userId)
    ensures r.Failure? ==> r.error == NotFound(NotFoundMessage)
  {
    if |store| == 0 then Failure(NotFound(NotFoundMessage))
    else if store[0].id == id && store[0].userId == userId then Success(View(store[0]))
    else
      assert forall g :: g in store <==> g == store[0] || g in store[1..];
      FindOne(store[1..], id, userId)
  }

  /** A row that exists but belongs to someone else is reported exactly like a
      row that does not exist. */
  lemma FindOneHidesOwnership(store: seq<Generation>, id: string, owner: string, other: string)
    requires UniqueIds(store) && owner != other
    requires exists g :: g in store && g.id == id && g.userId == owner
    ensures FindOne(store, id, other) == FindOne([], id, other)
  {
    var g :| g in store && g.id == id && g.userId == owner;
    forall h | h in store ensures !(h.id == id && h.userId == other) {
      var i :| 0 <= i < |store| && store[i] == g;
      var j :| 0 <= j < |store| && store[j] == h;
      if h.id == id {
        assert i == j;
      }
    }
  }

  /** After `create`, the new row is readable by its owner, as returned, and
      by nobody else. */
  lemma CreatedRecordReadableByOwnerOnly(store: seq<Generation>, userId: string, other: string,
                                         dto: CreateGenerationDto, id: string,
                                         createdAt: nat, updatedAt: nat,
                                         p: Provider, send: ChatRequest -> ProviderResult)
    requires id !in Ids(store) && UniqueIds(store) && other != userId
    ensures var o := Create(store, userId, dto, id, createdAt, updatedAt, p, send);
            && FindOne(o.store, id, userId) == Success(View(o.store[|store|]))
            && (o.result.Success? ==> FindOne(o.store, id, userId) == o.result)
            && FindOne(o.store, id, other).Failure?
  {
    var o := Create(store, userId, dto, id, createdAt, updatedAt, p, send);
    var g := o.store[|store|];
    assert g in o.store;
    forall h | h in o.store && h.id == id ensures h == g {
      var j :| 0 <= j < |o.store| && o.store[j] == h;
    }
  }
}
