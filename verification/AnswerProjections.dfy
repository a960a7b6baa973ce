/** The server's answer rows: batches of answers are upserted by publication and student and published
    as events, and the leaderboard is scored from the rows. */
module AnswerProjections {
  import opened Wrappers
  import opened QuizScoring
  import opened Leaderboard

  /** A row, or an item of a batch: an answer to a publication. */
  datatype Submission = Submission(publicationId: string, answer: Answer)

  /** The unique index of the rows. */
  datatype RowKey = RowKey(publicationId: string, id: string)

  /** The rows, which SQL may list in any order. */
  type Table = map<RowKey, Answer>

  datatype Publication = Publication(sessionId: string, syncState: string)

  function KeyOf(s: Submission): RowKey {
    RowKey(s.publicationId, s.answer.id)
  }

  /** Insert, or on conflict update every field. */
  function Upsert(t: Table, s: Submission): Table {
    t[KeyOf(s) := s.answer]
  }

  function UpsertAll(t: Table, subs: seq<Submission>): Table {
    if subs == [] then t else Upsert(UpsertAll(t, subs[..|subs| - 1]), subs[|subs| - 1])
  }

  function Answers(rows: seq<Submission>): seq<Answer> {
    seq(|rows|, i requires 0 <= i < |rows| => rows[i].answer)
  }

  ghost predicate HasKey(rows: seq<Submission>, k: RowKey) {
    exists i :: 0 <= i < |rows| && KeyOf(rows[i]) == k
  }

  /** The result of a query: each row of the table once, in some order. */
  ghost predicate Lists(rows: seq<Submission>, t: Table) {
    && (forall i :: 0 <= i < |rows| ==> KeyOf(rows[i]) in t && t[KeyOf(rows[i])] == rows[i].answer)
    && (forall i, j :: 0 <= i < j < |rows| ==> KeyOf(rows[i]) != KeyOf(rows[j]))
    && (forall k {:trigger HasKey(rows, k)} :: k in t ==> HasKey(rows, k))
  }

  // ---- the events of a batch

  /** The publications of a batch, in order of first appearance: the keys of a JavaScript Map. */
  function PublicationsOf(items: seq<Submission>): seq<string> {
    if items == [] then []
    else
      var before, p := PublicationsOf(items[..|items| - 1]), items[|items| - 1].publicationId;
      if p in before then before else before + [p]
  }

  function OfPublication(items: seq<Submission>, p: string): seq<Answer> {
    if items == [] then []
    else
      OfPublication(items[..|items| - 1], p)
      + if items[|items| - 1].publicationId == p then [items[|items| - 1].answer] else []
  }

  function EventsFor(now: string, items: seq<Submission>, publications: seq<string>): seq<ResponsesEvent> {
    if publications == [] then []
    else
      var p := publications[|publications| - 1];
      EventsFor(now, items, publications[..|publications| - 1])
      + [ResponsesEvent(p, now, OfPublication(items, p), false)]
  }

  /** One event for each publication of the batch. */
  function Publish(now: string, items: seq<Submission>): seq<ResponsesEvent> {
    EventsFor(now, items, PublicationsOf(items))
  }

  function FromEvent(e: ResponsesEvent): seq<Submission> {
    seq(|e.deltas|, i requires 0 <= i < |e.deltas| => Submission(e.publicationId, e.deltas[i]))
  }

  /** What the events say was submitted. */
  function Submitted(batches: seq<ResponsesEvent>): seq<Submission> {
    if batches == [] then [] else Submitted(batches[..|batches| - 1]) + FromEvent(batches[|batches| - 1])
  }

  function OfKey(subs: seq<Submission>, k: RowKey): seq<Answer> {
    if subs == [] then []
    else OfKey(subs[..|subs| - 1], k) + if KeyOf(subs[|subs| - 1]) == k then [subs[|subs| - 1].answer] else []
  }

  /** Of a key's submissions the last one is in the table. */
  lemma {:induction false} LastSubmissionStays(t: Table, subs: seq<Submission>, k: RowKey)
    ensures var his := OfKey(subs, k);
            && (k in UpsertAll(t, subs) <==> his != [] || k in t)
            && (k in UpsertAll(t, subs) ==> UpsertAll(t, subs)[k] == if his != [] then his[|his| - 1] else t[k])
    decreases |subs|
  {
    if subs != [] {
      LastSubmissionStays(t, subs[..|subs| - 1], k);
      assert OfKey(subs[..|subs| - 1], k) + [] == OfKey(subs[..|subs| - 1], k);
    }
  }

  lemma SameAt(t: Table, a: seq<Submission>, b: seq<Submission>, k: RowKey)
    requires OfKey(a, k) == OfKey(b, k)
    ensures k in UpsertAll(t, a) <==> k in UpsertAll(t, b)
    ensures k in UpsertAll(t, a) ==> UpsertAll(t, a)[k] == UpsertAll(t, b)[k]
  {
    LastSubmissionStays(t, a, k);
    LastSubmissionStays(t, b, k);
  }

  lemma SameMap<K, V>(m: map<K, V>, n: map<K, V>)
    requires forall k :: k in m <==> k in n
    requires forall k :: k in m ==> m[k] == n[k]
    ensures m == n
  {
    assert m.Keys == n.Keys;
  }

  lemma SameByKey(t: Table, a: seq<Submission>, b: seq<Submission>)
    requires forall k :: OfKey(a, k) == OfKey(b, k)
    ensures UpsertAll(t, a) == UpsertAll(t, b)
  {
    var m, n := UpsertAll(t, a), UpsertAll(t, b);
    forall k ensures (k in m <==> k in n) && (k in m ==> m[k] == n[k]) {
      SameAt(t, a, b, k);
    }
    SameMap(m, n);
  }

  lemma {:induction false} OfKeyAppend(a: seq<Submission>, b: seq<Submission>, k: RowKey)
    ensures OfKey(a + b, k) == OfKey(a, k) + OfKey(b, k)
    decreases |b|
  {
    if b == [] {
      assert a + b == a;
    } else {
      assert (a + b)[..|a + b| - 1] == a + b[..|b| - 1];
      OfKeyAppend(a, b[..|b| - 1], k);
    }
  }

  lemma {:induction false} OfKeyFromEvent(p: string, now: string, deltas: seq<Answer>, k: RowKey)
    ensures OfKey(FromEvent(ResponsesEvent(p, now, deltas, false)), k) ==
            if p == k.publicationId then OfStudent(deltas, k.id) else []
    decreases |deltas|
  {
    if deltas != [] {
      var subs := FromEvent(ResponsesEvent(p, now, deltas, false));
      assert subs[..|subs| - 1] == FromEvent(ResponsesEvent(p, now, deltas[..|deltas| - 1], false));
      OfKeyFromEvent(p, now, deltas[..|deltas| - 1], k);
    }
  }

  lemma {:induction false} OfKeyInPublication(items: seq<Submission>, k: RowKey)
    ensures OfKey(items, k) == OfStudent(OfPublication(items, k.publicationId), k.id)
    decreases |items|
  {
    if items != [] {
      var init, x := items[..|items| - 1], items[|items| - 1];
      OfKeyInPublication(init, k);
      var his := OfPublication(init, k.publicationId);
      assert (his + [x.answer])[..|his|] == his;
      assert his + [] == his;
    }
  }

  lemma {:induction false} PublicationsFacts(items: seq<Submission>)
    ensures NoRepeats(PublicationsOf(items))
    ensures forall p :: OfPublication(items, p) != [] <==> p in PublicationsOf(items)
    decreases |items|
  {
    if items != [] {
      PublicationsFacts(items[..|items| - 1]);
    }
  }

  lemma OneMoreEvent(now: string, items: seq<Submission>, publications: seq<string>)
    requires publications != []
    ensures var init, p := publications[..|publications| - 1], publications[|publications| - 1];
            Submitted(EventsFor(now, items, publications)) ==
            Submitted(EventsFor(now, items, init)) + FromEvent(ResponsesEvent(p, now, OfPublication(items, p), false))
  {
    var events := EventsFor(now, items, publications);
    assert events[..|events| - 1] == EventsFor(now, items, publications[..|publications| - 1]);
  }

  lemma OneMoreByKey(now: string, items: seq<Submission>, publications: seq<string>, k: RowKey)
    requires publications != []
    ensures var init, p := publications[..|publications| - 1], publications[|publications| - 1];
            OfKey(Submitted(EventsFor(now, items, publications)), k) ==
            OfKey(Submitted(EventsFor(now, items, init)), k) + if p == k.publicationId then OfKey(items, k) else []
  {
    var p := publications[|publications| - 1];
    var before := Submitted(EventsFor(now, items, publications[..|publications| - 1]));
    var deltas := OfPublication(items, p);
    OneMoreEvent(now, items, publications);
    OfKeyAppend(before, FromEvent(ResponsesEvent(p, now, deltas, false)), k);
    OfKeyFromEvent(p, now, deltas, k);
    OfKeyInPublication(items, k);
  }

  lemma {:induction false} EventsByKey(now: string, items: seq<Submission>, publications: seq<string>, k: RowKey)
    requires NoRepeats(publications)
    ensures OfKey(Submitted(EventsFor(now, items, publications)), k) ==
            if k.publicationId in publications then OfKey(items, k) else []
    decreases |publications|
  {
    if publications != [] {
      var init, p := publications[..|publications| - 1], publications[|publications| - 1];
      assert publications == init + [p];
      EventsByKey(now, items, init, k);
      OneMoreByKey(now, items, publications, k);
    }
  }

  /** The events of a batch describe the rows it writes, although they regroup its answers. */
  lemma PublishedRows(t: Table, now: string, items: seq<Submission>)
    ensures UpsertAll(t, Submitted(Publish(now, items))) == UpsertAll(t, items)
  {
    PublicationsFacts(items);
    forall k ensures OfKey(Submitted(Publish(now, items)), k) == OfKey(items, k) {
      EventsByKey(now, items, PublicationsOf(items), k);
      OfKeyInPublication(items, k);
    }
    SameByKey(t, Submitted(Publish(now, items)), items);
  }

  /** A call that ingests a batch. */
  datatype Call = Call(now: string, items: seq<Submission>)

  function AllItems(calls: seq<Call>): seq<Submission> {
    if calls == [] then [] else AllItems(calls[..|calls| - 1]) + calls[|calls| - 1].items
  }

  function AllEvents(calls: seq<Call>): seq<ResponsesEvent> {
    if calls == [] then []
    else AllEvents(calls[..|calls| - 1]) + Publish(calls[|calls| - 1].now, calls[|calls| - 1].items)
  }

  lemma {:induction false} UpsertAppend(t: Table, a: seq<Submission>, b: seq<Submission>)
    ensures UpsertAll(t, a + b) == UpsertAll(UpsertAll(t, a), b)
    decreases |b|
  {
    if b == [] {
      assert a + b == a;
    } else {
      assert (a + b)[..|a + b| - 1] == a + b[..|b| - 1];
      UpsertAppend(t, a, b[..|b| - 1]);
    }
  }

  lemma {:induction false} SubmittedAppend(a: seq<ResponsesEvent>, b: seq<ResponsesEvent>)
    ensures Submitted(a + b) == Submitted(a) + Submitted(b)
    decreases |b|
  {
    if b == [] {
      assert a + b == a;
      assert Submitted(a) + [] == Submitted(a);
    } else {
      var init, e := b[..|b| - 1], b[|b| - 1];
      SubmittedAppend(a, init);
      assert b == init + [e] && a + b == (a + init) + [e];
      SubmittedSnoc(init, e);
      SubmittedSnoc(a + init, e);
      Associative(Submitted(a), Submitted(init), FromEvent(e));
    }
  }

  lemma SubmittedSnoc(batches: seq<ResponsesEvent>, e: ResponsesEvent)
    ensures Submitted(batches + [e]) == Submitted(batches) + FromEvent(e)
  {
    assert (batches + [e])[..|batches|] == batches;
  }

  lemma Associative<T>(a: seq<T>, b: seq<T>, c: seq<T>)
    ensures (a + b) + c == a + (b + c)
  {
  }

  /** After any calls the rows are those of everything the events say was submitted. */
  lemma {:induction false} RunRows(t: Table, calls: seq<Call>)
    ensures UpsertAll(t, Submitted(AllEvents(calls))) == UpsertAll(t, AllItems(calls))
    decreases |calls|
  {
    if calls != [] {
      var init, call := calls[..|calls| - 1], calls[|calls| - 1];
      RunRows(t, init);
      SubmittedAppend(AllEvents(init), Publish(call.now, call.items));
      UpsertAppend(t, Submitted(AllEvents(init)), Submitted(Publish(call.now, call.items)));
      UpsertAppend(t, AllItems(init), call.items);
      PublishedRows(UpsertAll(t, AllItems(init)), call.now, call.items);
    }
  }

  /** The Map of deltas, with its keys in insertion order. */
  ghost predicate Groups(deltas: map<string, seq<Answer>>, order: seq<string>, items: seq<Submission>) {
    && order == PublicationsOf(items)
    && (forall p :: p in deltas <==> p in order)
    && (forall p :: p in deltas ==> deltas[p] == OfPublication(items, p))
  }

  predicate Known(items: seq<Submission>, publications: map<string, Publication>) {
    forall i :: 0 <= i < |items| ==> items[i].publicationId in publications
  }

  /** The Map after one more item. */
  function Grouped(deltas: map<string, seq<Answer>>, x: Submission): map<string, seq<Answer>> {
    deltas[x.publicationId := (if x.publicationId in deltas then deltas[x.publicationId] else []) + [x.answer]]
  }

  lemma GroupAt(deltas: map<string, seq<Answer>>, order: seq<string>, items: seq<Submission>, x: Submission, p: string)
    requires Groups(deltas, order, items) && p in Grouped(deltas, x)
    ensures Grouped(deltas, x)[p] == OfPublication(items + [x], p)
  {
    PublicationsFacts(items);
    OfPublicationOneMore(items, x, p);
    assert OfPublication(items, p) + [] == OfPublication(items, p);
  }

  lemma GroupOneMore(deltas: map<string, seq<Answer>>, order: seq<string>, items: seq<Submission>, x: Submission)
    requires Groups(deltas, order, items)
    ensures var p := x.publicationId;
            Groups(deltas[p := (if p in deltas then deltas[p] else []) + [x.answer]],
                   if p in deltas then order else order + [p], items + [x])
  {
    PublicationsOneMore(items, x);
    forall p | p in Grouped(deltas, x) ensures Grouped(deltas, x)[p] == OfPublication(items + [x], p) {
      GroupAt(deltas, order, items, x, p);
    }
  }

  lemma PublicationsOneMore(items: seq<Submission>, x: Submission)
    ensures var before := PublicationsOf(items);
            PublicationsOf(items + [x]) == if x.publicationId in before then before else before + [x.publicationId]
  {
    assert (items + [x])[..|items|] == items;
  }

  lemma OfPublicationOneMore(items: seq<Submission>, x: Submission, p: string)
    ensures OfPublication(items + [x], p) == OfPublication(items, p) + if x.publicationId == p then [x.answer] else []
  {
    assert (items + [x])[..|items|] == items;
  }

  /** What the loop has after its first `i` items. */
  ghost predicate Written(t: Table, t0: Table, deltas: map<string, seq<Answer>>, order: seq<string>,
                          items: seq<Submission>, publications: map<string, Publication>) {
    t == UpsertAll(t0, items) && Known(items, publications) && Groups(deltas, order, items)
  }

  /** One more item. */
  lemma WriteOneMore(t: Table, t0: Table, deltas: map<string, seq<Answer>>, order: seq<string>, items: seq<Submission>,
                     i: nat, publications: map<string, Publication>)
    requires i < |items| && Written(t, t0, deltas, order, items[..i], publications)
    requires items[i].publicationId in publications
    ensures var x := items[i]; var p := x.publicationId;
            Written(Upsert(t, x), t0, deltas[p := (if p in deltas then deltas[p] else []) + [x.answer]],
                    if p in deltas then order else order + [p], items[..i + 1], publications)
  {
    var before, x := items[..i], items[i];
    assert items[..i + 1] == before + [x];
    GroupOneMore(deltas, order, before, x);
    UpsertOneMore(t0, before, x);
    KnownOneMore(before, x, publications);
  }

  lemma UpsertOneMore(t: Table, items: seq<Submission>, x: Submission)
    ensures UpsertAll(t, items + [x]) == Upsert(UpsertAll(t, items), x)
  {
    assert (items + [x])[..|items|] == items;
  }

  lemma KnownOneMore(items: seq<Submission>, x: Submission, publications: map<string, Publication>)
    requires Known(items, publications) && x.publicationId in publications
    ensures Known(items + [x], publications)
  {
  }

  function Synced(publications: map<string, Publication>, done: seq<string>): map<string, Publication> {
    map p | p in publications :: if p in done then publications[p].(syncState := "synced") else publications[p]
  }

  /** Some item answers that publication. */
  ghost predicate Answered(items: seq<Submission>, p: string) {
    exists i :: 0 <= i < |items| && items[i].publicationId == p
  }

  lemma AnsweredSnoc(items: seq<Submission>, p: string)
    requires items != []
    ensures Answered(items, p) <==> Answered(items[..|items| - 1], p) || items[|items| - 1].publicationId == p
  {
    var init := items[..|items| - 1];
    if i :| 0 <= i < |items| && items[i].publicationId == p {
      assert i < |init| ==> init[i].publicationId == p;
    }
    if i :| 0 <= i < |init| && init[i].publicationId == p {
      assert items[i].publicationId == p;
    }
  }

  lemma {:induction false} PublicationNamed(items: seq<Submission>, p: string)
    ensures p in PublicationsOf(items) <==> Answered(items, p)
    decreases |items|
  {
    if items != [] {
      PublicationNamed(items[..|items| - 1], p);
      AnsweredSnoc(items, p);
    }
  }

  /** An event for a publication: its answers in the order of the batch, the time of the call, not stale. */
  ghost predicate IsEventOf(e: ResponsesEvent, now: string, items: seq<Submission>) {
    e.syncedAt == now && !e.stale && e.deltas == OfPublication(items, e.publicationId) != []
  }

  ghost predicate HasEvent(events: seq<ResponsesEvent>, p: string) {
    exists j :: 0 <= j < |events| && events[j].publicationId == p
  }

  /** One event for each publication answered. */
  ghost predicate AreEventsOf(events: seq<ResponsesEvent>, now: string, items: seq<Submission>) {
    && (forall i, j :: 0 <= i < j < |events| ==> events[i].publicationId != events[j].publicationId)
    && (forall i :: 0 <= i < |events| ==> IsEventOf(events[i], now, items))
    && (forall i :: 0 <= i < |items| ==> HasEvent(events, items[i].publicationId))
  }

  lemma {:induction false} EventsAt(now: string, items: seq<Submission>, publications: seq<string>)
    ensures var events := EventsFor(now, items, publications);
            |events| == |publications| && forall i :: 0 <= i < |events| ==>
              events[i] == ResponsesEvent(publications[i], now, OfPublication(items, publications[i]), false)
    decreases |publications|
  {
    if publications != [] {
      EventsAt(now, items, publications[..|publications| - 1]);
    }
  }

  lemma EventsAreThose(now: string, items: seq<Submission>)
    ensures AreEventsOf(Publish(now, items), now, items)
  {
    var events, ps := Publish(now, items), PublicationsOf(items);
    EventsAt(now, items, ps);
    PublicationsFacts(items);
    forall i | 0 <= i < |items| ensures HasEvent(events, items[i].publicationId) {
      EventFor(events, ps, items, i);
    }
    forall i | 0 <= i < |events| ensures IsEventOf(events[i], now, items) {
      assert ps[i] in ps;
    }
  }

  lemma EventFor(events: seq<ResponsesEvent>, ps: seq<string>, items: seq<Submission>, i: nat)
    requires ps == PublicationsOf(items) && i < |items| && |events| == |ps|
    requires forall j :: 0 <= j < |ps| ==> events[j].publicationId == ps[j]
    ensures HasEvent(events, items[i].publicationId)
  {
    var p := items[i].publicationId;
    assert Answered(items, p);
    PublicationNamed(items, p);
    var j :| 0 <= j < |ps| && ps[j] == p;
    assert events[j].publicationId == p;
  }

  /** The publications answered by a batch are synced afterwards; nothing else about them changes. */
  ghost predicate OnlySynced(before: map<string, Publication>, after: map<string, Publication>,
                             items: seq<Submission>) {
    && after.Keys == before.Keys
    && forall p :: p in after ==>
         && after[p].sessionId == before[p].sessionId
         && after[p].syncState == if Answered(items, p) then "synced" else before[p].syncState
  }

  lemma SyncedIs(publications: map<string, Publication>, items: seq<Submission>)
    ensures OnlySynced(publications, Synced(publications, PublicationsOf(items)), items)
  {
    forall p | p in publications ensures p in PublicationsOf(items) <==> Answered(items, p) {
      PublicationNamed(items, p);
    }
  }

  class Projections {
    var table: Table
    var publications: map<string, Publication>

    constructor (known: map<string, Publication>)
      ensures table == map[] && publications == known
    {
      table, publications := map[], known;
    }

    /** One batch from the quiz service, in one transaction. An answer to an unknown publication breaks
        the foreign key: the exception undoes the batch, and nothing is published. */
    method IngestAnswers(now: string, items: seq<Submission>) returns (events: Option<seq<ResponsesEvent>>)
      modifies this
      ensures events.Some? <==> forall i :: 0 <= i < |items| ==> items[i].publicationId in old(publications)
      ensures events.None? ==> table == old(table) && publications == old(publications)
      ensures events.Some? ==> table == UpsertAll(old(table), items) && events.value == Publish(now, items)
      ensures events.Some? ==> table == UpsertAll(old(table), Submitted(events.value))
      ensures events.Some? ==> publications == Synced(old(publications), PublicationsOf(items))
      ensures events.Some? ==> AreEventsOf(events.value, now, items)
      ensures events.Some? ==> OnlySynced(old(publications), publications, items)
    {
      EventsAreThose(now, items);
      SyncedIs(publications, items);
      if |items| == 0 {
        return Some([]);
      }
      var written, deltasByPublication, order := WriteRows(items);
      if written.None? {
        return None;
      }
      MarkSynced(order);
      table := written.value;
      var published := PublishEach(now, items, order, deltasByPublication);
      PublishedRows(old(table), now, items);
      events := Some(published);
    }

    /** The loop of the transaction: the rows as they will be committed, and the deltas by publication. */
    method WriteRows(items: seq<Submission>)
      returns (written: Option<Table>, deltasByPublication: map<string, seq<Answer>>, order: seq<string>)
      ensures written.Some? <==> Known(items, publications)
      ensures written.Some? ==> written.value == UpsertAll(table, items) && Groups(deltasByPublication, order, items)
    {
      var t := table;
      deltasByPublication, order := map[], [];
      for i := 0 to |items|
        invariant Written(t, table, deltasByPublication, order, items[..i], publications)
      {
        var item := items[i];
        if item.publicationId !in publications {
          written := None;
          return;
        }
        WriteOneMore(t, table, deltasByPublication, order, items, i, publications);
        t := t[RowKey(item.publicationId, item.answer.id) := item.answer];
        var deltas := if item.publicationId in deltasByPublication then deltasByPublication[item.publicationId] else [];
        if item.publicationId !in deltasByPublication {
          order := order + [item.publicationId];
        }
        deltasByPublication := deltasByPublication[item.publicationId := deltas + [item.answer]];
      }
      assert items[..|items|] == items;
      written := Some(t);
    }

    method MarkSynced(order: seq<string>)
      modifies this`publications
      ensures publications == Synced(old(publications), order)
    {
      for j := 0 to |order|
        invariant publications == Synced(old(publications), order[..j])
      {
        var p := order[j];
        assert order[..j + 1] == order[..j] + [p];
        if p in publications {
          publications := publications[p := publications[p].(syncState := "synced")];
        }
      }
      assert order[..|order|] == order;
    }

    method PublishEach(now: string, ghost items: seq<Submission>, order: seq<string>, deltas: map<string, seq<Answer>>)
      returns (events: seq<ResponsesEvent>)
      requires forall p :: p in order ==> p in deltas && deltas[p] == OfPublication(items, p)
      ensures events == EventsFor(now, items, order)
    {
      events := [];
      for j := 0 to |order|
        invariant events == EventsFor(now, items, order[..j])
      {
        assert order[..j + 1][..j] == order[..j];
        events := events + [ResponsesEvent(order[j], now, deltas[order[j]], false)];
      }
      assert order[..|order|] == order;
    }
  }

  // ---- the server's leaderboard

  /** The rows of one lecture session, by the inner joins with its publications. */
  function SessionRows(t: Table, publications: map<string, Publication>, sessionId: string): Table {
    map k | k in t && k.publicationId in publications && publications[k.publicationId].sessionId == sessionId :: t[k]
  }

  predicate IsStale(p: Publication) {
    p.syncState == "stale" || p.syncState == "failed"
  }

  ghost predicate StaleAmong(rows: seq<Submission>, publications: map<string, Publication>) {
    exists j :: 0 <= j < |rows| && rows[j].publicationId in publications && IsStale(publications[rows[j].publicationId])
  }

  lemma StaleByKey(t: Table, publications: map<string, Publication>, sessionId: string, rows: seq<Submission>)
    requires Lists(rows, SessionRows(t, publications, sessionId))
    ensures StaleAmong(rows, publications)
            <==> exists k :: k in SessionRows(t, publications, sessionId) && IsStale(publications[k.publicationId])
  {
    var session := SessionRows(t, publications, sessionId);
    if k :| k in session && IsStale(publications[k.publicationId]) {
      assert HasKey(rows, k);
      var j :| 0 <= j < |rows| && KeyOf(rows[j]) == k;
    }
    if StaleAmong(rows, publications) {
      var j :| 0 <= j < |rows| && rows[j].publicationId in publications && IsStale(publications[rows[j].publicationId]);
      assert KeyOf(rows[j]) in session;
    }
  }

  lemma OneMoreRow(t: Table, publications: map<string, Publication>, sessionId: string, rows: seq<Submission>, i: nat)
    requires Lists(rows, SessionRows(t, publications, sessionId)) && i < |rows|
    ensures rows[i].publicationId in publications
    ensures StaleAmong(rows[..i + 1], publications) <==>
            StaleAmong(rows[..i], publications) || IsStale(publications[rows[i].publicationId])
    ensures Answers(rows[..i + 1]) == Answers(rows[..i]) + [rows[i].answer]
  {
    assert KeyOf(rows[i]) in SessionRows(t, publications, sessionId);
    assert rows[..i + 1][i] == rows[i] && forall j :: 0 <= j < i ==> rows[..i + 1][j] == rows[..i][j];
  }

  /** The server's answer to `getLeaderboard`: one pass over the rows of the session, as the query lists
      them, then the scorer. */
  method GetLeaderboard(le: Collation, t: Table, publications: map<string, Publication>,
                        sessionId: string, rows: seq<Submission>)
    returns (entries: seq<Scored>, stale: bool)
    requires TotalOrder(le) && Lists(rows, SessionRows(t, publications, sessionId))
    ensures IsBoard(le, entries, TallyLog(Answers(rows)))
    ensures forall i :: 0 <= i < |rows| ==>
              && KeyOf(rows[i]) in t && t[KeyOf(rows[i])] == rows[i].answer
              && rows[i].publicationId in publications && publications[rows[i].publicationId].sessionId == sessionId
    ensures forall k :: k in t && k.publicationId in publications ==>
              publications[k.publicationId].sessionId == sessionId ==> HasKey(rows, k)
    ensures stale <==>
            exists k :: k in SessionRows(t, publications, sessionId) &&
              publications[k.publicationId].syncState in {"stale", "failed"}
  {
    var byStudent: Tallies := map[];
    stale := false;
    for i := 0 to |rows|
      invariant byStudent == TallyLog(Answers(rows[..i]))
      invariant stale <==> StaleAmong(rows[..i], publications)
    {
      OneMoreRow(t, publications, sessionId, rows, i);
      if IsStale(publications[rows[i].publicationId]) {
        stale := true;
      }
      byStudent := Accumulate(byStudent, rows[i].answer, Answers(rows[..i]));
    }
    assert rows[..|rows|] == rows;
    StaleByKey(t, publications, sessionId, rows);
    var inputs := ListTallies(byStudent);
    entries := ScoreParticipants(le, inputs);
    ScoringGivesBoard(le, inputs, byStudent);
  }

  method Accumulate(byStudent: Tallies, answer: Answer, ghost before: seq<Answer>) returns (next: Tallies)
    requires byStudent == TallyLog(before)
    ensures next == TallyLog(before + [answer])
  {
    assert (before + [answer])[..|before|] == before;
    var acc := if answer.id in byStudent then byStudent[answer.id] else Tally(answer.name, 0, 0, 0);
    next := byStudent[answer.id :=
      Tally(answer.name, acc.answered + 1,
            if answer.isCorrect then acc.correct + 1 else acc.correct,
            acc.total + answer.ms)];
  }
}
