/** The class `TrustScoreClient` of `src/score/index.ts`: the records and summaries it stores, and what
    every run of additions and checks does to a score. */
module ScoreStore {
  import opened Common
  import opened Policy
  import opened Score

  datatype ScoreError = ExecutorRequired | TxHashRequired | TaskIdRequired | DurationMustBeNonNegative

  // ---------- The client ----------

  type Store = map<string, seq<ProofRecord>>

  ghost predicate Holds(records: seq<ProofRecord>, txHash: string) {
    exists i :: 0 <= i < |records| && records[i].txHash == txHash
  }

  ghost function Added(store: Store, r: ProofRecord): Store {
    if r.executor == "" || r.txHash == "" then store
    else if r.executor !in store then store[r.executor := [r]]
    else if Holds(store[r.executor], r.txHash) then store
    else store[r.executor := store[r.executor] + [r]]
  }

  type Anchor = (string, string) -> Option<bool>

  function AnswerFor(anchor: Option<Anchor>, r: ProofRecord): Option<bool> {
    if anchor.None? then None else anchor.value(r.traceRoot, r.txHash)
  }

  /** `verifyAllRecords` checks only what is not yet verified. */
  function CheckedRecord(r: ProofRecord, anchor: Option<Anchor>): ProofRecord {
    if r.verified then r else Answered(r, AnswerFor(anchor, r))
  }

  function CheckedRecords(records: seq<ProofRecord>, anchor: Option<Anchor>): (checked: seq<ProofRecord>)
    ensures |checked| == |records|
  {
    seq(|records|, i requires 0 <= i < |records| => CheckedRecord(records[i], anchor))
  }

  /** `verifyProofRecord` checks one record, verified or not. */
  function AnsweredRecords(records: seq<ProofRecord>, txHash: string, answer: Option<bool>): (checked: seq<ProofRecord>)
    ensures |checked| == |records|
  {
    seq(|records|, i requires 0 <= i < |records| =>
      if records[i].txHash == txHash then Answered(records[i], answer) else records[i])
  }

  function CheckedOne(store: Store, agentId: string, txHash: string, answer: Option<bool>): Store {
    if agentId in store then store[agentId := AnsweredRecords(store[agentId], txHash, answer)] else store
  }

  lemma CountAppend<T>(s: seq<T>, x: T, p: T -> bool)
    ensures Count(s + [x], p) == Count(s, p) + if p(x) then 1 else 0
  {
    assert (s + [x])[..|s|] == s;
  }

  lemma CheckStep(records: seq<ProofRecord>, n: nat, anchor: Option<Anchor>)
    requires n < |records|
    ensures Count(CheckedRecords(records[..n + 1], anchor), IsVerified) - Count(records[..n + 1], IsVerified) ==
            Count(CheckedRecords(records[..n], anchor), IsVerified) - Count(records[..n], IsVerified) +
            (if !records[n].verified && CheckedRecord(records[n], anchor).verified then 1 else 0)
  {
    var checked := CheckedRecord(records[n], anchor);
    CheckedStaysVerified(records[n], anchor);
    hide CheckedRecord;
    assert records[..n + 1] == records[..n] + [records[n]];
    assert CheckedRecords(records[..n + 1], anchor) == CheckedRecords(records[..n], anchor) + [checked];
    CountAppend(records[..n], records[n], IsVerified);
    CountAppend(CheckedRecords(records[..n], anchor), checked, IsVerified);
  }

  lemma CheckedStaysVerified(r: ProofRecord, anchor: Option<Anchor>)
    ensures r.verified ==> CheckedRecord(r, anchor) == r
  {}

  /** The first `n` records checked and the others as they were. */
  ghost function PartlyChecked(records: seq<ProofRecord>, n: nat, anchor: Option<Anchor>): (partly: seq<ProofRecord>)
    requires n <= |records|
    ensures |partly| == |records|
  {
    CheckedRecords(records[..n], anchor) + records[n..]
  }

  lemma PartlyCheckedStep(records: seq<ProofRecord>, n: nat, anchor: Option<Anchor>)
    requires n < |records|
    ensures var partly := PartlyChecked(records, n, anchor);
            partly[n] == records[n] &&
            PartlyChecked(records, n + 1, anchor) == partly[n := CheckedRecord(records[n], anchor)]
  {
    hide CheckedRecord;
    assert records[..n + 1] == records[..n] + [records[n]];
    assert CheckedRecords(records[..n + 1], anchor) ==
           CheckedRecords(records[..n], anchor) + [CheckedRecord(records[n], anchor)];
  }

  lemma NothingChecked(records: seq<ProofRecord>, anchor: Option<Anchor>)
    ensures PartlyChecked(records, 0, anchor) == records
    ensures Count(CheckedRecords(records[..0], anchor), IsVerified) == Count(records[..0], IsVerified) == 0
  {}

  lemma AllChecked(records: seq<ProofRecord>, anchor: Option<Anchor>)
    ensures PartlyChecked(records, |records|, anchor) == CheckedRecords(records, anchor)
    ensures records[..|records|] == records
  {
    assert records[..|records|] == records;
  }

  /** A check of a record that is not verified takes over the answer. */
  lemma CheckedUnverified(r: ProofRecord, submitted: ProofRecord, anchor: Option<Anchor>)
    requires !r.verified && r == submitted.(verified := false)
    ensures CheckedRecord(r, anchor) == Answered(r, AnswerFor(anchor, submitted))
    ensures CheckedRecord(r, anchor).verified <==> AnswerFor(anchor, submitted) == Some(true)
  {}

  ghost predicate HashesDiffer(records: seq<ProofRecord>) {
    forall i, j :: 0 <= i < j < |records| ==> records[i].txHash != records[j].txHash
  }

  lemma AnswerOnce(records: seq<ProofRecord>, i: nat, answer: Option<bool>)
    requires i < |records| && HashesDiffer(records)
    ensures AnsweredRecords(records, records[i].txHash, answer) == records[i := Answered(records[i], answer)]
  {
    hide Answered;
    forall j | 0 <= j < |records| && j != i ensures records[j].txHash != records[i].txHash {
      assert j < i || i < j;
    }
  }

  /** The caller's own record, which the store keeps; only its flag changes. */
  class OnChainProofRecord {
    const submitted: ProofRecord
    var verified: bool

    constructor (record: ProofRecord)
      ensures Value() == record
    {
      submitted, verified := record, record.verified;
    }

    function Value(): ProofRecord
      reads this
    {
      submitted.(verified := verified)
    }
  }

  ghost function Values(objects: seq<OnChainProofRecord>): (values: seq<ProofRecord>)
    reads objects
    ensures |values| == |objects| && forall i :: 0 <= i < |objects| ==> values[i] == objects[i].Value()
  {
    if objects == [] then [] else Values(objects[..|objects| - 1]) + [objects[|objects| - 1].Value()]
  }

  /** Records of one agent, each of another transaction, so that none is there twice. */
  ghost predicate Listed(objects: seq<OnChainProofRecord>, agentId: string) {
    (forall i :: 0 <= i < |objects| ==> objects[i].submitted.executor == agentId) &&
    forall i, j :: 0 <= i < j < |objects| ==> objects[i].submitted.txHash != objects[j].submitted.txHash
  }

  lemma ListedAppend(objects: seq<OnChainProofRecord>, agentId: string, o: OnChainProofRecord)
    requires Listed(objects, agentId) && o.submitted.executor == agentId
    requires !Holds(Values(objects), o.submitted.txHash)
    ensures Listed(objects + [o], agentId)
  {
    assert forall i :: 0 <= i < |objects| ==> Values(objects)[i].txHash == objects[i].submitted.txHash;
  }

  lemma ValuesAppend(objects: seq<OnChainProofRecord>, o: OnChainProofRecord)
    ensures Values(objects + [o]) == Values(objects) + [o.Value()]
  {}

  /** A check of one record changes its own entry in a list that holds it, and no other list. */
  lemma OneAnswered(objects: seq<OnChainProofRecord>, before: seq<ProofRecord>, agentId: string,
                    record: OnChainProofRecord, answer: Option<bool>)
    requires Listed(objects, agentId) && |before| == |objects|
    requires forall i :: 0 <= i < |objects| ==> before[i].txHash == objects[i].submitted.txHash
    requires forall i :: 0 <= i < |objects| ==>
               objects[i].Value() == if objects[i] == record then Answered(before[i], answer) else before[i]
    ensures Values(objects) ==
            if record in objects then AnsweredRecords(before, record.submitted.txHash, answer) else before
  {
    forall i | 0 <= i < |objects| && record in objects
      ensures objects[i] == record <==> before[i].txHash == record.submitted.txHash
    {
      var k :| 0 <= k < |objects| && objects[k] == record;
      assert i == k || i < k || k < i;
    }
    hide Answered, Listed;
  }

  class TrustScoreClient {
    var proofStore: map<string, seq<OnChainProofRecord>>
    var store: map<string, seq<Summary>>
    /** The records in the store. */
    ghost var Repr: set<OnChainProofRecord>

    ghost predicate Valid()
      reads this
    {
      (forall d :: d in proofStore ==> Listed(proofStore[d], d)) &&
      (forall d, i :: d in proofStore && 0 <= i < |proofStore[d]| ==> proofStore[d][i] in Repr) &&
      forall o :: o in Repr ==> o.submitted.executor in proofStore && o in proofStore[o.submitted.executor]
    }

    /** The store by value. */
    ghost function Records(): Store
      requires Valid()
      reads this, Repr
    {
      map d | d in proofStore :: Values(proofStore[d])
    }

    constructor ()
      ensures Valid() && Records() == map[] && store == map[]
    {
      proofStore, store, Repr := map[], map[], {};
    }

    method AddProofRecord(record: OnChainProofRecord) returns (r: Result<(), ScoreError>)
      requires Valid()
      modifies this`proofStore, this`Repr
      ensures Valid() && Records() == Added(old(Records()), record.Value())
      ensures r == if record.submitted.executor == "" then Err(ExecutorRequired)
                   else if record.submitted.txHash == "" then Err(TxHashRequired) else Ok(())
    {
      hide Listed, Holds, Values, Valid, Records;
      var executor, txHash := record.submitted.executor, record.submitted.txHash;
      if executor == "" { return Err(ExecutorRequired); }
      if txHash == "" { return Err(TxHashRequired); }
      if executor in proofStore {
        var existing := proofStore[executor];
        ListOf(executor);
        var known := Known(existing, txHash);
        if !known {
          ListedAppend(existing, executor, record);
          ValuesAppend(existing, record);
          Append(record);
        }
      } else {
        ListOf(executor);
        NothingListed(executor);
        NothingHeld(txHash);
        ListedAppend([], executor, record);
        ValuesAppend([], record);
        assert [] + [record] == [record] && [] + [record.Value()] == [record.Value()];
        Append(record);
      }
      r := Ok(());
    }

    lemma NothingListed(agentId: string)
      ensures Listed([], agentId) && Values([]) == []
    {}

    lemma ListOf(agentId: string)
      requires Valid()
      ensures agentId in Records() <==> agentId in proofStore
      ensures agentId in proofStore ==>
                Listed(proofStore[agentId], agentId) && Records()[agentId] == Values(proofStore[agentId])
    {}

    method Known(existing: seq<OnChainProofRecord>, txHash: string) returns (known: bool)
      ensures known <==> Holds(Values(existing), txHash)
    {
      known := false;
      for i := 0 to |existing|
        invariant known <==> exists j :: 0 <= j < i && existing[j].submitted.txHash == txHash
      {
        if existing[i].submitted.txHash == txHash { known := true; }
      }
      assert forall i :: 0 <= i < |existing| ==> Values(existing)[i].txHash == existing[i].submitted.txHash;
    }

    method Append(record: OnChainProofRecord)
      requires Valid()
      requires var d := record.submitted.executor;
               Listed((if d in proofStore then proofStore[d] else []) + [record], d)
      modifies this`proofStore, this`Repr
      ensures Valid()
      ensures var d := record.submitted.executor;
              var list := if d in old(proofStore) then old(proofStore)[d] else [];
              Records() == old(Records())[d := Values(list + [record])]
    {
      hide Listed, Values;
      var d := record.submitted.executor;
      proofStore := proofStore[d := (if d in proofStore then proofStore[d] else []) + [record]];
      Repr := Repr + {record};
    }

    method SubmitExecutionSummary(summary: Summary) returns (r: Result<(), ScoreError>)
      modifies this`store
      ensures r.Ok? <==> summary.executor != "" && summary.taskId != "" && summary.durationMs >= 0
      ensures r.Err? ==> store == old(store)
      ensures r.Ok? ==> store == old(store)[summary.executor :=
                (if summary.executor in old(store) then old(store)[summary.executor] else []) + [summary]]
    {
      if summary.executor == "" { return Err(ExecutorRequired); }
      if summary.taskId == "" { return Err(TaskIdRequired); }
      if summary.durationMs < 0 { return Err(DurationMustBeNonNegative); }
      if summary.executor in store {
        store := store[summary.executor := store[summary.executor] + [summary]];
      } else {
        assert [] + [summary] == [summary];
        store := store[summary.executor := [summary]];
      }
      r := Ok(());
    }

    /** Gives the record the chain's answer, which is `None` when no provider is set or the provider throws.
        A stored record changes in the store, as the store keeps the caller's own. */
    method VerifyProofRecord(record: OnChainProofRecord, answer: Option<bool>) returns (ok: bool)
      requires Valid()
      modifies record`verified
      ensures Valid() && record.Value() == Answered(old(record.Value()), answer) && ok == (answer == Some(true))
      ensures Records() ==
              if record in Repr
              then CheckedOne(old(Records()), record.submitted.executor, record.submitted.txHash, answer)
              else old(Records())
    {
      hide Listed, Values, Records, Valid, AnsweredRecords;
      ghost var before := Records();
      ValuesBefore();
      if answer.Some? { record.verified := answer.value; }
      ok := answer == Some(true);
      StoredOnce(record);
      forall d | d in proofStore
        ensures Values(proofStore[d]) ==
                if record in proofStore[d] then AnsweredRecords(before[d], record.submitted.txHash, answer)
                else before[d]
      {
        ListOf(d);
        OneAnswered(proofStore[d], before[d], d, record, answer);
      }
      RecordsFrom(if record in Repr
                  then CheckedOne(before, record.submitted.executor, record.submitted.txHash, answer) else before);
    }

    lemma RecordsFrom(values: Store)
      requires Valid() && values.Keys == proofStore.Keys
      requires forall d :: d in proofStore ==> Values(proofStore[d]) == values[d]
      ensures Records() == values
    {}

    lemma ValuesBefore()
      requires Valid()
      ensures Records().Keys == proofStore.Keys
      ensures forall d :: d in proofStore ==> |Records()[d]| == |proofStore[d]|
      ensures forall d, i :: d in proofStore && 0 <= i < |proofStore[d]| ==> Records()[d][i] == proofStore[d][i].Value()
    {}

    /** A stored record is in the list of its own agent only. */
    lemma StoredOnce(record: OnChainProofRecord)
      requires Valid()
      ensures var d := record.submitted.executor;
              record in Repr <==> d in proofStore && record in proofStore[d]
      ensures forall d :: d in proofStore && record in proofStore[d] ==> d == record.submitted.executor
    {
      forall d | d in proofStore && record in proofStore[d] ensures d == record.submitted.executor && record in Repr {
        var i :| 0 <= i < |proofStore[d]| && proofStore[d][i] == record;
        assert Listed(proofStore[d], d);
      }
    }

    /** A call that nothing overlaps: checks what is not yet verified against the provider, if one is set, and
        tells how many records that verified. */
    method VerifyAllRecords(agentId: string, anchor: Option<Anchor>) returns (verified: int)
      requires Valid()
      modifies Repr
      ensures Valid()
      ensures agentId !in proofStore ==> Records() == old(Records()) && verified == 0
      ensures agentId in proofStore ==>
                var before, after := old(Records())[agentId], CheckedRecords(old(Records())[agentId], anchor);
                Records() == old(Records())[agentId := after] &&
                verified == Count(after, IsVerified) - Count(before, IsVerified)
    {
      hide CheckedRecord, Listed, CheckedRecords, PartlyChecked, Valid, Records, Values, Count;
      if agentId !in proofStore { return 0; }
      var objects := proofStore[agentId];
      ghost var before := Values(objects);
      ghost var start := Records();
      verified := 0;
      NothingChecked(before, anchor);
      ListOf(agentId);
      SameEntry(start, agentId);
      for i := 0 to |objects|
        invariant Valid()
        invariant Records() == start[agentId := PartlyChecked(before, i, anchor)]
        invariant verified == Count(CheckedRecords(before[..i], anchor), IsVerified) - Count(before[..i], IsVerified)
      {
        CheckStep(before, i, anchor);
        StoredValue(agentId, i);
        var ok := VerifyNext(agentId, i, anchor, start, before);
        if ok { verified := verified + 1; }
      }
      AllChecked(before, anchor);
    }

    lemma SameEntry(store: Store, agentId: string)
      requires agentId in store
      ensures store == store[agentId := store[agentId]]
    {}

    /** One turn of the loop: a record that is verified already is passed over. */
    method VerifyNext(agentId: string, i: nat, anchor: Option<Anchor>, ghost start: Store,
                      ghost before: seq<ProofRecord>)
      returns (ok: bool)
      requires Valid() && agentId in proofStore && i < |proofStore[agentId]| == |before|
      requires Records() == start[agentId := PartlyChecked(before, i, anchor)]
      modifies proofStore[agentId][i]
      ensures Valid() && Records() == start[agentId := PartlyChecked(before, i + 1, anchor)]
      ensures ok <==> !before[i].verified && CheckedRecord(before[i], anchor).verified
    {
      hide Valid, Records, Values, CheckedRecord, AnsweredRecords, PartlyChecked, Listed, HashesDiffer;
      var o := proofStore[agentId][i];
      PartlyCheckedStep(before, i, anchor);
      StoredValue(agentId, i);
      if o.verified {
        CheckedStaysVerified(before[i], anchor);
        assert PartlyChecked(before, i + 1, anchor) == PartlyChecked(before, i, anchor);
        return false;
      }
      CheckedUnverified(before[i], o.submitted, anchor);
      StoredHashesDiffer(agentId);
      AnswerOnce(PartlyChecked(before, i, anchor), i, AnswerFor(anchor, o.submitted));
      ok := VerifyProofRecord(o, AnswerFor(anchor, o.submitted));
    }

    lemma StoredValue(agentId: string, i: nat)
      requires Valid() && agentId in proofStore && i < |proofStore[agentId]|
      ensures proofStore[agentId][i] in Repr && proofStore[agentId][i].submitted.executor == agentId
      ensures agentId in Records() && Records()[agentId] == Values(proofStore[agentId])
      ensures proofStore[agentId][i].Value() == Records()[agentId][i]
    {
      assert Listed(proofStore[agentId], agentId);
    }

    lemma StoredHashesDiffer(agentId: string)
      requires Valid() && agentId in proofStore
      ensures HashesDiffer(Records()[agentId])
    {
      assert Listed(proofStore[agentId], agentId);
    }

    /** Within the ceiling of the records that decide, and 0 without any. */
    method GetAgentScore(agentId: string) returns (score: real)
      requires Valid()
      ensures score == ScoreOf(Records(), store, agentId)
      ensures 0.0 <= score <= Ceiling(Deciding(Records(), store, agentId)) as real
      ensures Deciding(Records(), store, agentId) == 0 ==> score == 0.0
    {
      ScoreOfBounded(Records(), store, agentId);
      ListOf(agentId);
      hide TrustScore, Valid, Records, Values, Listed, Ceiling, Deciding;
      if agentId in proofStore && |proofStore[agentId]| > 0 {
        var values := ReadAll(proofStore[agentId]);
        return TrustScore(OfProofs(values));
      }
      if agentId in store && |store[agentId]| > 0 {
        return TrustScore(OfSummaries(store[agentId]));
      }
      score := 0.0;
    }
  }

  method ReadAll(objects: seq<OnChainProofRecord>) returns (values: seq<ProofRecord>)
    ensures values == Values(objects)
  {
    values := [];
    for i := 0 to |objects|
      invariant |values| == i && forall j :: 0 <= j < i ==> values[j] == objects[j].Value()
    {
      values := values + [objects[i].Value()];
    }
  }

  /** Proofs decide when there are any; summaries only count for an agent without proofs. */
  ghost function ScoreOf(proofs: Store, summaries: map<string, seq<Summary>>, agentId: string): real {
    if agentId in proofs && proofs[agentId] != [] then TrustScore(OfProofs(proofs[agentId]))
    else if agentId in summaries && summaries[agentId] != [] then TrustScore(OfSummaries(summaries[agentId]))
    else 0.0
  }

  /** How many records the score of an agent is made of. */
  ghost function Deciding(proofs: Store, summaries: map<string, seq<Summary>>, agentId: string): nat {
    if agentId in proofs && proofs[agentId] != [] then |proofs[agentId]|
    else if agentId in summaries then |summaries[agentId]|
    else 0
  }

  lemma ScoreOfBounded(proofs: Store, summaries: map<string, seq<Summary>>, agentId: string)
    ensures 0.0 <= ScoreOf(proofs, summaries, agentId) <= Ceiling(Deciding(proofs, summaries, agentId)) as real
    ensures Deciding(proofs, summaries, agentId) == 0 ==> ScoreOf(proofs, summaries, agentId) == 0.0
  {
    hide TrustScore, OfProofs, OfSummaries;
    ScoresBounded(if agentId in proofs then proofs[agentId] else [],
                  if agentId in summaries then summaries[agentId] else []);
  }

  /** A call of `verifyAllRecords` that nothing overlaps never lowers a score. */
  lemma VerifyingNeverLowers(records: seq<ProofRecord>, anchor: Option<Anchor>)
    requires records != []
    ensures CheckedRecords(records, anchor) != []
    ensures TrustScore(OfProofs(records)) <= TrustScore(OfProofs(CheckedRecords(records, anchor)))
  {
    hide TrustScore;
    ScoreMonotone(records, CheckedRecords(records, anchor));
  }

  // ---------- Runs of the record store ----------

  ghost function Run(history: seq<ProofRecord>): Store {
    if history == [] then map[] else Added(Run(history[..|history| - 1]), history[|history| - 1])
  }

  /** The record at `i` is the first of its agent with its transaction. */
  ghost predicate First(history: seq<ProofRecord>, i: nat)
    requires i < |history|
  {
    history[i].executor != "" && history[i].txHash != "" &&
    forall j :: 0 <= j < i ==> history[j].executor == history[i].executor ==> history[j].txHash != history[i].txHash
  }

  /** What an agent should hold after a history: its first record of each transaction, in order. */
  ghost function Firsts(history: seq<ProofRecord>, agentId: string): seq<ProofRecord> {
    if history == [] then []
    else
      var n := |history| - 1;
      Firsts(history[..n], agentId) + if history[n].executor == agentId && First(history, n) then [history[n]] else []
  }

  ghost predicate Submitted(history: seq<ProofRecord>, agentId: string, txHash: string) {
    exists i :: 0 <= i < |history| && history[i].executor == agentId && history[i].txHash == txHash
  }

  lemma SubmittedSplit(history: seq<ProofRecord>, agentId: string, txHash: string)
    requires history != []
    ensures Submitted(history, agentId, txHash) <==>
            Submitted(history[..|history| - 1], agentId, txHash) ||
            (history[|history| - 1].executor == agentId && history[|history| - 1].txHash == txHash)
  {
    var n := |history| - 1;
    if Submitted(history[..n], agentId, txHash) {
      var i :| 0 <= i < n && history[..n][i].executor == agentId && history[..n][i].txHash == txHash;
      assert history[i] == history[..n][i];
    }
    if Submitted(history, agentId, txHash) {
      var i :| 0 <= i < |history| && history[i].executor == agentId && history[i].txHash == txHash;
      if i < n { assert history[..n][i] == history[i]; }
    }
  }

  lemma FirstIsUnsubmitted(history: seq<ProofRecord>)
    requires history != []
    ensures var r := history[|history| - 1];
            First(history, |history| - 1) <==>
            r.executor != "" && r.txHash != "" && !Submitted(history[..|history| - 1], r.executor, r.txHash)
  {
    var n := |history| - 1;
    var earlier := history[..n];
    assert forall j :: 0 <= j < n ==> earlier[j] == history[j];
  }

  lemma HoldsAppend(records: seq<ProofRecord>, r: ProofRecord, txHash: string)
    ensures Holds(records + [r], txHash) <==> Holds(records, txHash) || r.txHash == txHash
  {
    if Holds(records, txHash) {
      var i :| 0 <= i < |records| && records[i].txHash == txHash;
      assert (records + [r])[i] == records[i];
    }
    if r.txHash == txHash { assert (records + [r])[|records|] == r; }
  }

  lemma {:induction false} FirstsHold(history: seq<ProofRecord>, agentId: string, txHash: string)
    requires agentId != "" && txHash != ""
    ensures Holds(Firsts(history, agentId), txHash) <==> Submitted(history, agentId, txHash)
  {
    if history != [] {
      var n := |history| - 1;
      FirstsHold(history[..n], agentId, txHash);
      SubmittedSplit(history, agentId, txHash);
      FirstIsUnsubmitted(history);
      HoldsAppend(Firsts(history[..n], agentId), history[n], txHash);
      hide Holds, Submitted, First;
      assert Firsts(history[..n], agentId) + [] == Firsts(history[..n], agentId);
    }
  }

  /** Main result: over every run, an agent holds exactly its first record of each transaction, so that
      submitting a record again changes no score. */
  lemma {:induction false} RunKeepsFirsts(history: seq<ProofRecord>, agentId: string)
    ensures agentId in Run(history) <==> Firsts(history, agentId) != []
    ensures agentId in Run(history) ==> Run(history)[agentId] == Firsts(history, agentId)
  {
    if history != [] {
      var n := |history| - 1;
      var r := history[n];
      RunKeepsFirsts(history[..n], agentId);
      FirstIsUnsubmitted(history);
      if r.executor != "" && r.txHash != "" { FirstsHold(history[..n], r.executor, r.txHash); }
      hide First, Submitted, Holds;
      assert Holds([], r.txHash) == false by { NothingHeld(r.txHash); }
      assert Firsts(history[..n], agentId) + [] == Firsts(history[..n], agentId);
    }
  }

  lemma NothingHeld(txHash: string)
    ensures !Holds([], txHash)
  {}

  lemma {:induction false} FirstsDistinct(history: seq<ProofRecord>, agentId: string, i: nat, j: nat)
    requires i < j < |Firsts(history, agentId)|
    ensures Firsts(history, agentId)[i].executor == Firsts(history, agentId)[j].executor == agentId
    ensures Firsts(history, agentId)[i].txHash != Firsts(history, agentId)[j].txHash
  {
    var n := |history| - 1;
    var earlier := Firsts(history[..n], agentId);
    if j < |earlier| {
      FirstsDistinct(history[..n], agentId, i, j);
    } else {
      FirstsAreTheirs(history[..n], agentId, i);
      FirstIsUnsubmitted(history);
      FirstsHold(history[..n], agentId, history[n].txHash);
      assert earlier[i].txHash == history[n].txHash ==> Holds(earlier, history[n].txHash);
    }
  }

  lemma {:induction false} FirstsAreTheirs(history: seq<ProofRecord>, agentId: string, i: nat)
    requires i < |Firsts(history, agentId)|
    ensures Firsts(history, agentId)[i].executor == agentId
  {
    if i < |Firsts(history[..|history| - 1], agentId)| { FirstsAreTheirs(history[..|history| - 1], agentId, i); }
  }

  /** Submitting again what was submitted changes nothing. */
  lemma ResubmissionChangesNothing(history: seq<ProofRecord>, i: nat)
    requires i < |history|
    ensures Added(Run(history), history[i]) == Run(history)
  {
    var r := history[i];
    if r.executor != "" && r.txHash != "" {
      RunKeepsFirsts(history, r.executor);
      FirstsHold(history, r.executor, r.txHash);
      assert Submitted(history, r.executor, r.txHash);
      NothingHeld(r.txHash);
    }
  }

  /** Exactly what a store can hold for an agent is what some history of additions leaves it. */
  lemma StorableExact(records: seq<ProofRecord>, agentId: string)
    requires agentId != ""
    ensures Storable(records, agentId) <==> exists history :: Firsts(history, agentId) == records
  {
    if Storable(records, agentId) {
      StorableReached(records, agentId);
      assert Firsts(records, agentId) == records;
    }
    if exists history :: Firsts(history, agentId) == records {
      var history :| Firsts(history, agentId) == records;
      FirstsStorable(history, agentId);
    }
  }

  lemma {:induction false} StorableReached(records: seq<ProofRecord>, agentId: string)
    requires Storable(records, agentId)
    ensures Firsts(records, agentId) == records
  {
    if records != [] {
      var n := |records| - 1;
      assert Storable(records[..n], agentId) && First(records, n) && records[n].executor == agentId;
      hide Storable, First;
      StorableReached(records[..n], agentId);
      assert records == records[..n] + [records[n]];
    }
  }

  lemma FirstsStorable(history: seq<ProofRecord>, agentId: string)
    requires agentId != ""
    ensures Storable(Firsts(history, agentId), agentId)
  {
    var records := Firsts(history, agentId);
    forall i | 0 <= i < |records| ensures records[i].executor == agentId && records[i].txHash != "" {
      FirstsAreTheirs(history, agentId, i);
    }
    forall i, j | 0 <= i < j < |records| ensures records[i].txHash != records[j].txHash {
      FirstsDistinct(history, agentId, i, j);
    }
  }

  // ---------- One more flawless record ----------

  ghost function Stored(store: Store, agentId: string): seq<ProofRecord> {
    if agentId in store then store[agentId] else []
  }

  ghost function Reported(summaries: map<string, seq<Summary>>, agentId: string): seq<Summary> {
    if agentId in summaries then summaries[agentId] else []
  }

  /** However the tasks of an agent went that has so many records, so many of them verified, none with a negative
      count, and these summaries: a further flawless record does not lower its score. */
  ghost predicate NeverDrops(total: nat, verified: nat, own: seq<Summary>) {
    forall store: Store, summaries: map<string, seq<Summary>>, agentId: string, r: ProofRecord
      | HasHistory(Stored(store, agentId), agentId, total, verified) && Reported(summaries, agentId) == own &&
        Flawless(r) && Storable(Stored(store, agentId) + [r], agentId) ::
      ScoreOf(store, summaries, agentId) <= ScoreOf(Added(store, r), summaries, agentId)
  }

  /** The first record of an agent silences summaries that score more than the 55 it can give. */
  ghost predicate SilencesSummaries(total: nat, own: seq<Summary>) {
    total == 0 && own != [] && TrustScore(OfSummaries(own)) > 55.0
  }

  lemma AddedAppends(store: Store, agentId: string, r: ProofRecord)
    requires Storable(Stored(store, agentId) + [r], agentId)
    ensures agentId in Added(store, r) && Added(store, r)[agentId] == Stored(store, agentId) + [r]
  {
    var records := Stored(store, agentId);
    var all := records + [r];
    assert all[|records|] == r;
    assert forall i :: 0 <= i < |records| ==> all[i] == records[i] && all[i].txHash != all[|records|].txHash;
    assert [] + [r] == [r];
  }

  lemma ScoreByRecords(store: Store, summaries: map<string, seq<Summary>>, agentId: string)
    ensures var records, own := Stored(store, agentId), Reported(summaries, agentId);
            ScoreOf(store, summaries, agentId) ==
            if records != [] then TrustScore(OfProofs(records))
            else if own != [] then TrustScore(OfSummaries(own))
            else 0.0
  {
    hide TrustScore;
  }

  lemma FirstFlawless(r: ProofRecord)
    requires Flawless(r)
    ensures TrustScore(OfProofs([] + [r])) == 55.0
  {
    assert [] + [r] == [r];
    hide TrustScore, OfProofs;
    FlawlessScore([r]);
  }

  lemma NeverLowered(store: Store, summaries: map<string, seq<Summary>>, agentId: string, r: ProofRecord)
    requires Flawless(r) && Storable(Stored(store, agentId) + [r], agentId)
    requires forall x :: x in Stored(store, agentId) ==> x.policyViolations >= 0
    requires !AtThePenaltyStep(|Stored(store, agentId)|, Count(Stored(store, agentId), IsVerified))
    requires !SilencesSummaries(|Stored(store, agentId)|, Reported(summaries, agentId))
    ensures ScoreOf(store, summaries, agentId) <= ScoreOf(Added(store, r), summaries, agentId)
  {
    AddedAppends(store, agentId, r);
    ScoreByRecords(store, summaries, agentId);
    ScoreByRecords(Added(store, r), summaries, agentId);
    var records := Stored(store, agentId);
    assert Stored(Added(store, r), agentId) == records + [r];
    hide TrustScore, OfProofs, OfSummaries, Added, ScoreOf, Storable, Reported, Count;
    if records == [] {
      FirstFlawless(r);
    } else {
      FlawlessRecordNeverLowers(records, r);
    }
  }

  /** The state of an agent with these records and summaries. */
  lemma StateOf(agentId: string, records: seq<ProofRecord>, own: seq<Summary>)
    ensures Stored(map[agentId := records], agentId) == records && Reported(map[agentId := own], agentId) == own
  {}

  lemma TenthDrops(verified: nat, own: seq<Summary>)
    requires verified <= 3
    ensures !NeverDrops(9, verified, own)
  {
    var records, r := NineThenTen(verified);
    var agentId := "did:atel:a";
    var store: Store, summaries := map[agentId := records], map[agentId := own];
    StateOf(agentId, records, own);
    hide TrustScore, OfProofs, OfSummaries, Storable;
    AddedAppends(store, agentId, r);
    ScoreByRecords(store, summaries, agentId);
    ScoreByRecords(Added(store, r), summaries, agentId);
    assert HasHistory(Stored(store, agentId), agentId, 9, verified);
  }

  lemma FirstDrops(own: seq<Summary>)
    requires SilencesSummaries(0, own)
    ensures !NeverDrops(0, 0, own)
  {
    var agentId, r := "did:atel:a", Sample(0, true, High, true);
    var store: Store, summaries := map[], map[agentId := own];
    StateOf(agentId, [], own);
    HashTextLength(0);
    assert HasHistory([], agentId, 0, 0) && Storable([] + [r], agentId);
    FirstFlawless(r);
    hide TrustScore, OfProofs, OfSummaries, Storable;
    AddedAppends(store, agentId, r);
    ScoreByRecords(store, summaries, agentId);
    ScoreByRecords(Added(store, r), summaries, agentId);
    assert HasHistory(Stored(store, agentId), agentId, 0, 0);
  }

  /** Main result: with counts that are not negative, a further flawless record can lower a score in two cases
      only. It is the tenth, after nine of which at most three are verified; or it is the first, and the
      summaries that decided before scored more than 55. */
  lemma FlawlessTaskExact(total: nat, verified: nat, own: seq<Summary>)
    requires verified <= total
    ensures NeverDrops(total, verified, own) <==>
            !AtThePenaltyStep(total, verified) && !SilencesSummaries(total, own)
  {
    hide TrustScore, OfProofs, OfSummaries, Storable, Added, ScoreOf, SilencesSummaries;
    if AtThePenaltyStep(total, verified) {
      TenthDrops(verified, own);
    } else if SilencesSummaries(total, own) {
      SilencedTotal(total, own);
      FirstDrops(own);
    } else {
      forall store: Store, summaries: map<string, seq<Summary>>, agentId: string, r: ProofRecord
        | HasHistory(Stored(store, agentId), agentId, total, verified) && Reported(summaries, agentId) == own &&
          Flawless(r) && Storable(Stored(store, agentId) + [r], agentId)
        ensures ScoreOf(store, summaries, agentId) <= ScoreOf(Added(store, r), summaries, agentId)
      {
        NeverLowered(store, summaries, agentId, r);
      }
    }
  }

  lemma SilencedTotal(total: nat, own: seq<Summary>)
    requires SilencesSummaries(total, own)
    ensures total == 0
  {}

  /** Both cases happen: a hundred good summaries score 70, and the first flawless record then gives 55. */
  lemma GoodSummariesAreSilenced()
    ensures SilencesSummaries(0, Claims(0)) && !NeverDrops(0, 0, Claims(0))
  {
    ClaimsScore();
    hide TrustScore, OfSummaries;
    FirstDrops(Claims(0));
  }

  // ---------- Runs that also check records ----------

  /** Answers of the chain may differ from one check to the next. `Check` is a single check of a record that the
      store holds. Calls of `verifyAllRecords` that overlap are runs of such checks, one for each answer that
      arrives; `VerifyAll` is a call that nothing overlaps. */
  datatype Op =
    | Add(record: ProofRecord)
    | Check(agentId: string, txHash: string, answer: Option<bool>)
    | VerifyAll(agentId: string, anchor: Option<Anchor>)

  ghost function After(store: Store, op: Op): Store {
    match op
    case Add(record) => Added(store, record)
    case Check(agentId, txHash, answer) => CheckedOne(store, agentId, txHash, answer)
    case VerifyAll(agentId, anchor) =>
      if agentId in store then store[agentId := CheckedRecords(store[agentId], anchor)] else store
  }

  ghost function RunOps(ops: seq<Op>): Store {
    if ops == [] then map[] else After(RunOps(ops[..|ops| - 1]), ops[|ops| - 1])
  }

  function Additions(ops: seq<Op>): seq<ProofRecord> {
    if ops == [] then []
    else
      var op := ops[|ops| - 1];
      Additions(ops[..|ops| - 1]) + if op.Add? then [op.record] else []
  }

  /** This check finds the record on the chain. */
  ghost predicate Confirms(op: Op, r: ProofRecord) {
    match op
    case Add(_) => false
    case Check(agentId, txHash, answer) => agentId == r.executor && txHash == r.txHash && answer == Some(true)
    case VerifyAll(agentId, anchor) => agentId == r.executor && AnswerFor(anchor, r) == Some(true)
  }

  ghost predicate Confirmed(ops: seq<Op>, r: ProofRecord) {
    exists i :: 0 <= i < |ops| && Confirms(ops[i], r)
  }

  /** This check takes a verification away. */
  ghost predicate Withdraws(store: Store, op: Op, agentId: string) {
    op.Check? && op.agentId == agentId && op.answer == Some(false) &&
    exists i :: 0 <= i < |Stored(store, agentId)| && Stored(store, agentId)[i].txHash == op.txHash &&
                Stored(store, agentId)[i].verified
  }

  ghost predicate Withdrawn(ops: seq<Op>, agentId: string) {
    ops != [] && (Withdrawn(ops[..|ops| - 1], agentId) || Withdraws(RunOps(ops[..|ops| - 1]), ops[|ops| - 1], agentId))
  }

  /** `b` is the record `a` as submitted but for its flag, which a check of the run has set or taken away. */
  ghost predicate Stems(ops: seq<Op>, a: ProofRecord, b: ProofRecord, withdrawn: bool) {
    b == a.(verified := b.verified) && (b.verified ==> a.verified || Confirmed(ops, a)) &&
    (a.verified ==> b.verified || withdrawn)
  }

  ghost predicate AllStem(ops: seq<Op>, submitted: seq<ProofRecord>, stored: seq<ProofRecord>, withdrawn: bool) {
    |submitted| == |stored| && forall i :: 0 <= i < |stored| ==> Stems(ops, submitted[i], stored[i], withdrawn)
  }

  lemma ConfirmedStays(ops: seq<Op>, op: Op, r: ProofRecord)
    ensures Confirmed(ops + [op], r) <==> Confirmed(ops, r) || Confirms(op, r)
  {
    hide Confirms;
    if Confirmed(ops, r) {
      var i :| 0 <= i < |ops| && Confirms(ops[i], r);
      assert (ops + [op])[i] == ops[i];
    }
    assert (ops + [op])[|ops|] == op;
  }

  lemma StemsStays(ops: seq<Op>, op: Op, a: ProofRecord, b: ProofRecord, before: bool, after: bool)
    requires Stems(ops, a, b, before) && (before ==> after)
    ensures Stems(ops + [op], a, b, after)
  {
    ConfirmedStays(ops, op, a);
  }

  lemma AllStemStays(ops: seq<Op>, op: Op, submitted: seq<ProofRecord>, stored: seq<ProofRecord>,
                     before: bool, after: bool)
    requires AllStem(ops, submitted, stored, before) && (before ==> after)
    ensures AllStem(ops + [op], submitted, stored, after)
  {
    hide Stems;
    forall i | 0 <= i < |stored| ensures Stems(ops + [op], submitted[i], stored[i], after) {
      StemsStays(ops, op, submitted[i], stored[i], before, after);
    }
  }

  lemma VerifiedStems(ops: seq<Op>, agentId: string, anchor: Option<Anchor>, a: ProofRecord, b: ProofRecord,
                      withdrawn: bool)
    requires Stems(ops, a, b, withdrawn) && a.executor == agentId
    ensures Stems(ops + [VerifyAll(agentId, anchor)], a, CheckedRecord(b, anchor), withdrawn)
  {
    ConfirmedStays(ops, VerifyAll(agentId, anchor), a);
    assert AnswerFor(anchor, b) == AnswerFor(anchor, a);
    hide Confirmed, AnswerFor;
  }

  lemma AllVerifiedStem(ops: seq<Op>, agentId: string, anchor: Option<Anchor>, submitted: seq<ProofRecord>,
                        stored: seq<ProofRecord>, withdrawn: bool)
    requires AllStem(ops, submitted, stored, withdrawn) && forall a :: a in submitted ==> a.executor == agentId
    ensures AllStem(ops + [VerifyAll(agentId, anchor)], submitted, CheckedRecords(stored, anchor), withdrawn)
  {
    hide Stems, CheckedRecord;
    forall i | 0 <= i < |stored|
      ensures Stems(ops + [VerifyAll(agentId, anchor)], submitted[i], CheckedRecord(stored[i], anchor), withdrawn)
    {
      VerifiedStems(ops, agentId, anchor, submitted[i], stored[i], withdrawn);
    }
  }

  lemma AnsweredStems(ops: seq<Op>, op: Op, a: ProofRecord, b: ProofRecord, before: bool, after: bool)
    requires op.Check? && a.executor == op.agentId && b.txHash == op.txHash
    requires Stems(ops, a, b, before) && (before ==> after)
    requires op.answer == Some(false) && b.verified ==> after
    ensures Stems(ops + [op], a, Answered(b, op.answer), after)
  {
    ConfirmedStays(ops, op, a);
    hide Confirmed;
  }

  lemma AllAnsweredStem(ops: seq<Op>, op: Op, submitted: seq<ProofRecord>, stored: seq<ProofRecord>,
                        before: bool, after: bool)
    requires op.Check? && AllStem(ops, submitted, stored, before) && (before ==> after)
    requires forall a :: a in submitted ==> a.executor == op.agentId
    requires forall i :: 0 <= i < |stored| ==>
               (stored[i].txHash == op.txHash && stored[i].verified && op.answer == Some(false) ==> after)
    ensures AllStem(ops + [op], submitted, AnsweredRecords(stored, op.txHash, op.answer), after)
  {
    hide Stems, Answered;
    var answered := AnsweredRecords(stored, op.txHash, op.answer);
    forall i | 0 <= i < |stored| ensures Stems(ops + [op], submitted[i], answered[i], after) {
      if stored[i].txHash == op.txHash {
        AnsweredStems(ops, op, submitted[i], stored[i], before, after);
      } else {
        StemsStays(ops, op, submitted[i], stored[i], before, after);
      }
    }
  }

  lemma StemsHold(ops: seq<Op>, submitted: seq<ProofRecord>, stored: seq<ProofRecord>, withdrawn: bool, txHash: string)
    requires AllStem(ops, submitted, stored, withdrawn)
    ensures Holds(submitted, txHash) <==> Holds(stored, txHash)
  {
    hide Confirmed;
    assert forall i :: 0 <= i < |stored| ==>
             Stems(ops, submitted[i], stored[i], withdrawn) && submitted[i].txHash == stored[i].txHash;
  }

  lemma SelfStems(ops: seq<Op>, r: ProofRecord, withdrawn: bool)
    ensures Stems(ops, r, r, withdrawn)
  {}

  lemma AddStems(ops: seq<Op>, s: Store, t: Store, r: ProofRecord, agentId: string, withdrawn: bool)
    requires AllStem(ops, Stored(s, agentId), Stored(t, agentId), withdrawn)
    requires agentId in s <==> agentId in t
    ensures agentId in Added(s, r) <==> agentId in Added(t, r)
    ensures AllStem(ops + [Add(r)], Stored(Added(s, r), agentId), Stored(Added(t, r), agentId), withdrawn)
  {
    AllStemStays(ops, Add(r), Stored(s, agentId), Stored(t, agentId), withdrawn, withdrawn);
    StemsHold(ops, Stored(s, agentId), Stored(t, agentId), withdrawn, r.txHash);
    SelfStems(ops + [Add(r)], r, withdrawn);
    hide Stems, Holds;
  }

  /** Main result: over every run of additions and checks an agent holds the records that the additions alone
      would have left, each as submitted but for its flag: one that is set was submitted so or confirmed by a
      check, and one that is not was submitted so unless a check took a verification away. */
  lemma {:induction false} RunOpsKeepsRecords(ops: seq<Op>, agentId: string)
    ensures Kept(ops, agentId)
  {
    if ops == [] {
      RunKeepsFirsts([], agentId);
    } else {
      var init, op := ops[..|ops| - 1], ops[|ops| - 1];
      assert ops == init + [op];
      RunOpsKeepsRecords(init, agentId);
      hide AllStem, Firsts, Run, Added, AnsweredRecords, CheckedRecords, Withdraws;
      match op
      case Add(r) => KeepsOnAdd(init, r, agentId);
      case Check(_, _, _) => KeepsOnCheck(init, op, agentId);
      case VerifyAll(checked, anchor) => KeepsOnVerifyAll(init, checked, anchor, agentId);
    }
  }

  /** The agent holds what the additions alone would have left, but for flags. */
  ghost predicate Kept(ops: seq<Op>, agentId: string) {
    (agentId in RunOps(ops) <==> agentId in Run(Additions(ops))) &&
    AllStem(ops, Firsts(Additions(ops), agentId), Stored(RunOps(ops), agentId), Withdrawn(ops, agentId))
  }

  lemma Unfold(init: seq<Op>, op: Op, agentId: string)
    ensures RunOps(init + [op]) == After(RunOps(init), op)
    ensures Additions(init + [op]) == Additions(init) + if op.Add? then [op.record] else []
    ensures Withdrawn(init + [op], agentId) <==> Withdrawn(init, agentId) || Withdraws(RunOps(init), op, agentId)
  {
    assert (init + [op])[..|init|] == init;
  }

  lemma KeepsOnAdd(init: seq<Op>, r: ProofRecord, agentId: string)
    requires Kept(init, agentId)
    ensures Kept(init + [Add(r)], agentId)
  {
    var ops, earlier := init + [Add(r)], Additions(init);
    Unfold(init, Add(r), agentId);
    RunKeepsFirsts(earlier, agentId);
    RunKeepsFirsts(earlier + [r], agentId);
    assert (earlier + [r])[..|earlier|] == earlier;
    assert Run(earlier + [r]) == Added(Run(earlier), r);
    hide AllStem, Firsts, Added, Run, RunOps, Withdrawn, Additions;
    AddStems(init, Run(earlier), RunOps(init), r, agentId, Withdrawn(init, agentId));
  }

  lemma KeepsOnCheck(init: seq<Op>, op: Op, agentId: string)
    requires op.Check? && Kept(init, agentId)
    ensures Kept(init + [op], agentId)
  {
    var submitted, stored := Firsts(Additions(init), agentId), Stored(RunOps(init), agentId);
    var before, after := Withdrawn(init, agentId), Withdrawn(init + [op], agentId);
    Unfold(init, op, agentId);
    FirstsTheirs(Additions(init), agentId);
    assert Additions(init + [op]) == Additions(init);
    hide AllStem, Firsts, AnsweredRecords, RunOps, Run, Withdrawn, Additions;
    if op.agentId == agentId && agentId in RunOps(init) {
      AllAnsweredStem(init, op, submitted, stored, before, after);
    } else {
      AllStemStays(init, op, submitted, stored, before, after);
    }
  }

  lemma KeepsOnVerifyAll(init: seq<Op>, checked: string, anchor: Option<Anchor>, agentId: string)
    requires Kept(init, agentId)
    ensures Kept(init + [VerifyAll(checked, anchor)], agentId)
  {
    var op := VerifyAll(checked, anchor);
    var submitted, stored := Firsts(Additions(init), agentId), Stored(RunOps(init), agentId);
    var withdrawn := Withdrawn(init, agentId);
    Unfold(init, op, agentId);
    FirstsTheirs(Additions(init), agentId);
    assert Additions(init + [op]) == Additions(init);
    hide AllStem, Firsts, CheckedRecords, RunOps, Run, Withdrawn, Additions;
    if checked == agentId && agentId in RunOps(init) {
      AllVerifiedStem(init, agentId, anchor, submitted, stored, withdrawn);
    } else {
      AllStemStays(init, op, submitted, stored, withdrawn, withdrawn);
    }
  }

  lemma FirstsTheirs(history: seq<ProofRecord>, agentId: string)
    ensures forall r :: r in Firsts(history, agentId) ==> r.executor == agentId
  {
    forall r | r in Firsts(history, agentId) ensures r.executor == agentId {
      var i :| 0 <= i < |Firsts(history, agentId)| && Firsts(history, agentId)[i] == r;
      FirstsAreTheirs(history, agentId, i);
    }
  }

  lemma StemsImprove(ops: seq<Op>, submitted: seq<ProofRecord>, stored: seq<ProofRecord>)
    requires AllStem(ops, submitted, stored, false)
    ensures Improves(submitted, stored)
  {
    hide Confirmed;
    forall i | 0 <= i < |stored| ensures RecordImproves(submitted[i], stored[i]) {
      assert Stems(ops, submitted[i], stored[i], false);
    }
  }

  /** Main result: after any run the score lies within the ceiling for the number of the agent's distinct
      records; it is below that of these records as submitted only if a check took a verification away. */
  lemma ScoreOverRuns(ops: seq<Op>, summaries: map<string, seq<Summary>>, agentId: string)
    ensures var records, score := Firsts(Additions(ops), agentId), ScoreOf(RunOps(ops), summaries, agentId);
            records != [] ==>
              0.0 <= score <= Ceiling(|records|) as real &&
              (!Withdrawn(ops, agentId) ==> TrustScore(OfProofs(records)) <= score)
    ensures Firsts(Additions(ops), agentId) == [] ==>
              ScoreOf(RunOps(ops), summaries, agentId) == ScoreOf(map[], summaries, agentId)
  {
    var records := Firsts(Additions(ops), agentId);
    RunOpsKeepsRecords(ops, agentId);
    RunKeepsFirsts(Additions(ops), agentId);
    var stored := Stored(RunOps(ops), agentId);
    assert |stored| == |records|;
    if !Withdrawn(ops, agentId) { StemsImprove(ops, records, stored); }
    hide TrustScore, OfProofs, OfSummaries, AllStem, Firsts, RunOps, Run, Improves, Withdrawn;
    if records != [] {
      if !Withdrawn(ops, agentId) { ScoreMonotone(records, stored); }
      ScoreOfBounded(RunOps(ops), summaries, agentId);
    }
  }
}
