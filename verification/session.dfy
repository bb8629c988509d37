/** session.rs: sessions numbered by an id counter. */
module Session {
  import opened Ints

  /** `SessionId`: a `u64` counter value. */
  datatype SessionId = SessionId(id: nat)

  /** `SessionId::next`; the source's `u64` addition must not overflow. */
  function Next(s: SessionId): (r: SessionId)
    requires s.id + 1 < U64_LIMIT
    ensures r.id == s.id + 1
  {
    SessionId(s.id + 1)
  }

  /** `Session` carries no data. */
  datatype Session = Session

  /** `SessionSet`: the sessions by id and the id the next one will get. */
  datatype SessionSet = SessionSet(sessions: map<nat, Session>, nextSessionId: SessionId)

  /** Every stored id is below the next id. */
  predicate Valid(s: SessionSet) {
    forall id :: id in s.sessions ==> id < s.nextSessionId.id
  }

  /** `SessionSet::default`. */
  function Default(): (s: SessionSet)
    ensures Valid(s)
    ensures |s.sessions| == 0 && s.nextSessionId.id == 1
  {
    SessionSet(map[], SessionId(1))
  }

  /** `SessionSet::insert`: the session is stored under the next id, which then advances. */
  function Insert(s: SessionSet, session: Session): SessionSet
    requires s.nextSessionId.id + 1 < U64_LIMIT
  {
    SessionSet(s.sessions[s.nextSessionId.id := session], Next(s.nextSessionId))
  }

  /** Insertion keeps every id below the next id, adds exactly one new id, never overwrites a stored
      session, and strictly increases the next id. */
  lemma InsertFresh(s: SessionSet, session: Session)
    requires Valid(s) && s.nextSessionId.id + 1 < U64_LIMIT
    ensures Valid(Insert(s, session))
    ensures s.nextSessionId.id !in s.sessions
    ensures Insert(s, session).sessions.Keys == s.sessions.Keys + {s.nextSessionId.id}
    ensures |Insert(s, session).sessions| == |s.sessions| + 1
    ensures forall id :: id in s.sessions ==> Insert(s, session).sessions[id] == s.sessions[id]
    ensures Insert(s, session).nextSessionId.id > s.nextSessionId.id
  {
    assert s.nextSessionId.id !in s.sessions;
  }

  /** Inserting `n` sessions, starting from the default set, assigns the ids 1 to `n`. */
  function InsertMany(s: SessionSet, n: nat): SessionSet
    requires s.nextSessionId.id + n < U64_LIMIT
    decreases n
  {
    if n == 0 then s else InsertMany(Insert(s, Session), n - 1)
  }

  lemma {:induction false} InsertManyIds(s: SessionSet, n: nat)
    requires Valid(s) && s.nextSessionId.id + n < U64_LIMIT
    ensures Valid(InsertMany(s, n))
    ensures InsertMany(s, n).nextSessionId.id == s.nextSessionId.id + n
    ensures forall id :: id in InsertMany(s, n).sessions <==>
              id in s.sessions || s.nextSessionId.id <= id < s.nextSessionId.id + n
    decreases n
  {
    if n > 0 {
      InsertFresh(s, Session);
      InsertManyIds(Insert(s, Session), n - 1);
    }
  }

  /** From the default set, `n` insertions hold exactly the ids `1..n`. */
  lemma DefaultThenInsertMany(n: nat)
    requires n + 1 < U64_LIMIT
    ensures forall id :: id in InsertMany(Default(), n).sessions <==> 1 <= id <= n
    ensures InsertMany(Default(), n).nextSessionId.id == n + 1
  {
    InsertManyIds(Default(), n);
  }
}
