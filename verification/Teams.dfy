/** Teams, memberships and the letters invites enqueue: a membership and its letter are
    written in one transaction, or not at all. */
module Teams {
  import opened Prelude
  import opened Decimal
  import opened Outbox

  const OWNER := "owner"
  const MEMBER := "member"

  datatype Error = NotFound | Forbidden | AlreadyMember | Failed

  type Membership = (int, int)   // (team, user)

  /** users: which user an address finds. letters: all ever enqueued. */
  datatype Db = Db(
    users: map<string, int>,
    teams: map<int, int>,               // team -> created_by
    members: map<Membership, string>,   // -> role
    letters: map<int, Message>,
    nextTeam: int,
    nextLetter: int)

  const SUBJECT := "You have been invited to a team"

  function Body(team: int): string {
    "You have been added to team " + FormatInt(team) + ". Open Task Tracker to get started."
  }

  function Letter(team: int, address: string): Message {
    Message(address, SUBJECT, Body(team))
  }

  lemma BodyInjective(a: int, b: int)
    requires Body(a) == Body(b)
    ensures a == b
  {
    var head, tail := "You have been added to team ", ". Open Task Tracker to get started.";
    var x, y := FormatInt(a), FormatInt(b);
    assert |x| == |y|;
    assert Body(a)[|head|..|head| + |x|] == x;
    assert Body(b)[|head|..|head| + |y|] == y;
    FormatIntInjective(a, b);
  }

  function WithTeam(db: Db, id: int, creator: int): Db {
    db.(teams := db.teams[id := creator], members := db.members[(id, creator) := OWNER])
  }

  function WithInvite(db: Db, team: int, user: int, address: string, letter: int): Db {
    db.(members := db.members[(team, user) := MEMBER],
        letters := db.letters[letter := Letter(team, address)])
  }

  // --- what holds between the tables ---

  /** The letter tells this user, under one of the user's addresses, of this team. */
  predicate IsFor(db: Db, id: int, m: Membership) {
    id in db.letters &&
    var letter := db.letters[id];
    letter.recipient in db.users && db.users[letter.recipient] == m.1 && letter == Letter(m.0, letter.recipient)
  }

  predicate Guest(db: Db, m: Membership) {
    m in db.members && db.members[m] != OWNER
  }

  ghost predicate LettersGood(db: Db) {
    && (forall id :: id in db.letters ==> id < db.nextLetter)
    && (forall id :: id in db.letters ==> exists m :: Guest(db, m) && IsFor(db, id, m))
    && (forall i, j, m :: IsFor(db, i, m) && IsFor(db, j, m) ==> i == j)
  }

  ghost predicate GuestsGood(db: Db) {
    forall m: Membership :: Guest(db, m) ==> exists id :: IsFor(db, id, m)
  }

  predicate OwnersGood(db: Db) {
    && (forall t :: t in db.teams ==>
          t < db.nextTeam && (t, db.teams[t]) in db.members && db.members[(t, db.teams[t])] == OWNER)
    && (forall m :: m in db.members ==> m.0 in db.teams && (db.members[m] == OWNER ==> db.teams[m.0] == m.1))
    && (forall m :: m in db.members ==> db.members[m] == OWNER || db.members[m] == MEMBER)
  }

  ghost predicate Good(db: Db) {
    LettersGood(db) && GuestsGood(db) && OwnersGood(db)
  }

  /** Read as a function either way: the letter of a guest, the guest of a letter. */
  lemma OneToOne(db: Db)
    requires Good(db)
    ensures forall m: Membership :: Guest(db, m) ==> exists id :: IsFor(db, id, m)
    ensures forall m, i, j :: IsFor(db, i, m) && IsFor(db, j, m) ==> i == j
    ensures forall id :: id in db.letters ==> exists m :: Guest(db, m) && IsFor(db, id, m)
    ensures forall id, m, n :: IsFor(db, id, m) && IsFor(db, id, n) ==> m == n
  {
    hide Body;
    forall id, m, n | IsFor(db, id, m) && IsFor(db, id, n)
      ensures m == n
    {
      BodyInjective(m.0, n.0);
    }
  }

  lemma TeamKeeps(db: Db, id: int, creator: int)
    requires Good(db) && id !in db.teams && id < db.nextTeam
    ensures Good(WithTeam(db, id, creator))
  {
    hide Letter;
    var after := WithTeam(db, id, creator);
    assert forall l, m :: IsFor(after, l, m) <==> IsFor(db, l, m);
    assert forall m :: Guest(after, m) <==> Guest(db, m);
  }

  lemma InviteKeeps(db: Db, team: int, user: int, address: string, letter: int)
    requires Good(db)
    requires team in db.teams && (team, user) !in db.members
    requires address in db.users && db.users[address] == user
    requires letter !in db.letters && letter < db.nextLetter
    ensures Good(WithInvite(db, team, user, address, letter))
  {
    hide Body;
    var after := WithInvite(db, team, user, address, letter);
    assert IsFor(after, letter, (team, user));
    forall m | IsFor(after, letter, m)
      ensures m == (team, user)
    {
      BodyInjective(m.0, team);
    }
    assert forall l, m :: l != letter ==> (IsFor(after, l, m) <==> IsFor(db, l, m));
    assert forall m :: m != (team, user) ==> (Guest(after, m) <==> Guest(db, m));
    assert Guest(after, (team, user));
    forall l, m | IsFor(db, l, m)
      ensures m != (team, user)
    {
      OneToOne(db);
    }
    forall l | l in after.letters
      ensures exists m :: Guest(after, m) && IsFor(after, l, m)
    {
      if l != letter {
        var m :| Guest(db, m) && IsFor(db, l, m);
        assert Guest(after, m) && IsFor(after, l, m);
      }
    }
  }

  // --- the service, one call at a time ---

  class TeamService {
    var db: Db
    var up: nat   // how many more statements the connection answers

    method Exec() returns (ok: bool)
      modifies this`up
      ensures ok <==> old(up) > 0
      ensures up == if ok then old(up) - 1 else 0
    {
      ok := up > 0;
      if ok {
        up := up - 1;
      }
    }

    method AddMember(team: int, user: int, role: string) returns (error: Option<Error>)
      modifies this
      ensures up == if old(up) > 0 then old(up) - 1 else 0
      ensures error == if old(up) == 0 then Some(Failed)
                       else if (team, user) in old(db).members then Some(AlreadyMember)
                       else if team !in old(db).teams || user !in old(db).users.Values then Some(NotFound)
                       else None
      ensures db == if error.Some? then old(db) else old(db).(members := old(db).members[(team, user) := role])
    {
      var ok := Exec();
      if !ok {
        return Some(Failed);
      }
      if (team, user) in db.members {
        return Some(AlreadyMember);
      }
      if team !in db.teams || user !in db.users.Values {
        return Some(NotFound);   // a foreign key
      }
      db := db.(members := db.members[(team, user) := role]);
      error := None;
    }

    method Enqueue(letter: Message) returns (ok: bool)
      modifies this
      ensures ok <==> old(up) > 0
      ensures up == if ok then old(up) - 1 else 0
      ensures ok ==> db == old(db).(
        letters := old(db).letters[old(db).nextLetter := letter],
        nextLetter := old(db).nextLetter + 1)
      ensures !ok ==> db == old(db)
    {
      ok := Exec();
      if ok {
        db := db.(letters := db.letters[db.nextLetter := letter], nextLetter := db.nextLetter + 1);
      }
    }

    /** Nothing but a used-up team id is left of a failed creation. */
    method Create(actor: int) returns (error: Option<Error>, team: int)
      requires Good(db)
      modifies this
      ensures Good(db)
      ensures error.None? <==> old(up) >= 2 && actor in old(db).users.Values
      ensures old(up) > 0 && actor !in old(db).users.Values ==> error == Some(NotFound)
      ensures error.None? ==>
        team == old(db).nextTeam && team !in old(db).teams &&
        db == WithTeam(old(db), team, actor).(nextTeam := team + 1)
        && db.teams == old(db).teams[team := actor] && db.members == old(db).members[(team, actor) := "owner"]
        && db.letters == old(db).letters && db.users == old(db).users
      ensures error.Some? ==> db == old(db).(nextTeam := db.nextTeam)
    {
      var before := db;
      team := db.nextTeam;
      var ok := Exec();
      if !ok {
        return Some(Failed), team;
      }
      if actor !in db.users.Values {
        return Some(NotFound), team;   // a foreign key
      }
      db := db.(teams := db.teams[team := actor], nextTeam := team + 1);
      UnusedTeam(before);
      error := AddMember(team, actor, OWNER);
      if error.Some? {
        db := before.(nextTeam := team + 1);   // rollback
        MoreKeeps(before, before.(nextTeam := team + 1));
        return;
      }
      MoreKeeps(before, before.(nextTeam := team + 1));
      TeamKeeps(before.(nextTeam := team + 1), team, actor);
    }

    /** An invite that fails, for whatever reason, leaves neither membership nor letter;
        one that succeeds leaves both. */
    method Invite(auth: Option<Error>, team: int, address: string) returns (error: Option<Error>)
      requires Good(db)
      modifies this
      ensures Good(db)
      ensures error.None? <==>
        && auth.None? && old(up) >= 3
        && address in old(db).users && team in old(db).teams && (team, old(db).users[address]) !in old(db).members
      ensures error.None? ==>
        db == WithInvite(old(db), team, old(db).users[address], address, old(db).nextLetter)
                .(nextLetter := old(db).nextLetter + 1)
      ensures error.None? ==>
        && db.members == old(db).members[(team, old(db).users[address]) := "member"]
        && db.letters == old(db).letters[old(db).nextLetter := Message(
             address, "You have been invited to a team",
             "You have been added to team " + FormatInt(team) + ". Open Task Tracker to get started.")]
        && db.teams == old(db).teams && db.users == old(db).users
      ensures error.Some? ==> db == old(db).(nextLetter := db.nextLetter)
      ensures (auth.None? && old(up) >= 2 && address in old(db).users
               && (team, old(db).users[address]) in old(db).members) ==> error == Some(AlreadyMember)
    {
      hide LettersGood, GuestsGood, OwnersGood;
      if auth.Some? {
        return auth;
      }
      var ok := Exec();
      if !ok {
        return Some(Failed);
      }
      if address !in db.users {
        return Some(NotFound);
      }
      var user := db.users[address];
      var before := db;
      error := AddMember(team, user, MEMBER);
      if error.Some? {
        return;   // nothing written yet
      }
      ok := Enqueue(Letter(team, address));
      if !ok {
        db := before;   // rollback
        return Some(Failed);
      }
      MoreKeeps(before, before.(nextLetter := before.nextLetter + 1));
      UnusedLetter(before);
      InviteKeeps(before.(nextLetter := before.nextLetter + 1), team, user, address, before.nextLetter);
    }
  }

  lemma UnusedTeam(db: Db)
    requires Good(db)
    ensures db.nextTeam !in db.teams && forall m :: m in db.members ==> m.0 != db.nextTeam
  {
    hide LettersGood, GuestsGood;
  }

  lemma UnusedLetter(db: Db)
    requires Good(db)
    ensures db.nextLetter !in db.letters
  {
    hide OwnersGood, GuestsGood;
  }

  /** Ids that nobody got, and new addresses, change nothing. */
  lemma MoreKeeps(db: Db, after: Db)
    requires Good(db)
    requires after.teams == db.teams && after.members == db.members && after.letters == db.letters
    requires after.nextTeam >= db.nextTeam && after.nextLetter >= db.nextLetter
    requires forall a :: a in db.users ==> a in after.users && after.users[a] == db.users[a]
    ensures Good(after)
  {
    hide Letter;
    forall l, m
      ensures IsFor(after, l, m) <==> IsFor(db, l, m)
    {
      if l in db.letters {
        var owner :| Guest(db, owner) && IsFor(db, l, owner);
      }
    }
    assert forall m :: Guest(after, m) <==> Guest(db, m);
  }

  // --- many calls at once ---

  datatype Tx =
    | Creating(team: int, creator: int, joined: bool)
    | Inviting(team: int, user: int, address: string, letter: Option<int>)

  datatype State = State(db: Db, txs: map<int, Tx>)

  datatype Step =
    | Register(address: string, user: int)
    | InsertTeam(t: int, creator: int)
    | Join(t: int)
    | InsertMember(t: int, team: int, user: int, address: string)
    | Enqueue(t: int)
    | Commit(t: int)
    | Rollback(t: int)

  /** The primary key makes an insert of the same membership wait. */
  predicate Unclaimed(s: State, team: int, user: int) {
    forall t :: t in s.txs && s.txs[t].Inviting? ==> (s.txs[t].team, s.txs[t].user) != (team, user)
  }

  predicate Done(tx: Tx) {
    if tx.Creating? then tx.joined else tx.letter.Some?
  }

  predicate Enabled(s: State, step: Step) {
    match step
    case Register(address, _) => address !in s.db.users
    case InsertTeam(t, creator) => t !in s.txs && creator in s.db.users.Values
    case Join(t) => t in s.txs && s.txs[t].Creating? && !s.txs[t].joined
    case InsertMember(t, team, user, address) =>
      && t !in s.txs && address in s.db.users && s.db.users[address] == user
      && team in s.db.teams && (team, user) !in s.db.members && Unclaimed(s, team, user)
    case Enqueue(t) => t in s.txs && s.txs[t].Inviting? && s.txs[t].letter.None?
    case Commit(t) => t in s.txs && Done(s.txs[t])
    case Rollback(t) => t in s.txs
  }

  function Applied(db: Db, tx: Tx): Db
    requires Done(tx)
  {
    if tx.Creating? then WithTeam(db, tx.team, tx.creator)
    else WithInvite(db, tx.team, tx.user, tx.address, tx.letter.value)
  }

  function Next(s: State, step: Step): State
    requires Enabled(s, step)
  {
    match step
    case Register(address, user) => s.(db := s.db.(users := s.db.users[address := user]))
    case InsertTeam(t, creator) =>
      State(s.db.(nextTeam := s.db.nextTeam + 1), s.txs[t := Creating(s.db.nextTeam, creator, false)])
    case Join(t) => s.(txs := s.txs[t := Creating(s.txs[t].team, s.txs[t].creator, true)])
    case InsertMember(t, team, user, address) => s.(txs := s.txs[t := Inviting(team, user, address, None)])
    case Enqueue(t) =>
      var tx := s.txs[t];
      State(s.db.(nextLetter := s.db.nextLetter + 1),
            s.txs[t := Inviting(tx.team, tx.user, tx.address, Some(s.db.nextLetter))])
    case Commit(t) => State(Applied(s.db, s.txs[t]), s.txs - {t})
    case Rollback(t) => s.(txs := s.txs - {t})
  }

  predicate TxGood(db: Db, tx: Tx) {
    match tx
    case Creating(team, _, _) => team !in db.teams && team < db.nextTeam
    case Inviting(team, user, address, letter) =>
      && address in db.users && db.users[address] == user
      && team in db.teams && (team, user) !in db.members
      && (letter.Some? ==> letter.value !in db.letters && letter.value < db.nextLetter)
  }

  predicate Apart(a: Tx, b: Tx) {
    && (a.Creating? && b.Creating? ==> a.team != b.team)
    && (a.Inviting? && b.Inviting? ==>
          (a.team, a.user) != (b.team, b.user) && (a.letter.Some? ==> a.letter != b.letter))
  }

  ghost predicate Inv(s: State) {
    && Good(s.db)
    && (forall t :: t in s.txs ==> TxGood(s.db, s.txs[t]))
    && (forall t, u :: t in s.txs && u in s.txs && t != u ==> Apart(s.txs[t], s.txs[u]))
  }

  lemma LocalStep(s: State, db: Db, t: int, tx: Tx)
    requires Inv(s) && Good(db) && TxGood(db, tx)
    requires forall u :: u in s.txs && u != t ==> Apart(tx, s.txs[u])
    requires forall u :: u in s.txs && u != t ==> TxGood(db, s.txs[u])
    ensures Inv(State(db, s.txs[t := tx]))
  {
    hide Good, TxGood;
    var s' := State(db, s.txs[t := tx]);
    forall u, v | u in s'.txs && v in s'.txs && u != v
      ensures Apart(s'.txs[u], s'.txs[v])
    {
      if v == t {
        assert Apart(tx, s.txs[u]);
      }
    }
  }

  lemma CommitKeeps(s: State, t: int)
    requires Inv(s) && Enabled(s, Commit(t))
    ensures Inv(Next(s, Commit(t)))
  {
    hide Good;
    var tx := s.txs[t];
    assert TxGood(s.db, tx);
    if tx.Creating? {
      TeamKeeps(s.db, tx.team, tx.creator);
      MembersInTeams(s.db);
    } else {
      InviteKeeps(s.db, tx.team, tx.user, tx.address, tx.letter.value);
    }
    var s' := Next(s, Commit(t));
    forall u | u in s'.txs
      ensures TxGood(s'.db, s'.txs[u])
    {
      assert TxGood(s.db, s.txs[u]) && Apart(s.txs[u], tx);
    }
  }

  lemma MembersInTeams(db: Db)
    requires Good(db)
    ensures forall m :: m in db.members ==> m.0 in db.teams
  {
    hide LettersGood, GuestsGood;
  }

  lemma StepKeeps(s: State, step: Step)
    requires Inv(s) && Enabled(s, step)
    ensures Inv(Next(s, step))
  {
    hide Good;
    match step
    case Register(address, user) => MoreKeeps(s.db, Next(s, step).db);
    case InsertTeam(t, creator) =>
      UnusedTeam(s.db);
      MoreKeeps(s.db, Next(s, step).db);
      LocalStep(s, Next(s, step).db, t, Creating(s.db.nextTeam, creator, false));
    case Join(t) => LocalStep(s, s.db, t, Next(s, step).txs[t]);
    case InsertMember(t, _, _, _) => LocalStep(s, s.db, t, Next(s, step).txs[t]);
    case Enqueue(t) =>
      UnusedLetter(s.db);
      MoreKeeps(s.db, Next(s, step).db);
      LocalStep(s, Next(s, step).db, t, Next(s, step).txs[t]);
    case Commit(t) => CommitKeeps(s, t);
    case Rollback(t) => RollbackKeeps(s, t);
  }

  lemma RollbackKeeps(s: State, t: int)
    requires Inv(s) && t in s.txs
    ensures Inv(s.(txs := s.txs - {t}))
  {
    hide Good, TxGood, Apart;
  }

  predicate Initial(s: State) {
    s.db.teams == map[] && s.db.members == map[] && s.db.letters == map[] && s.txs == map[]
  }

  function Run(s: State, steps: seq<Step>): State
    requires Legal(s, steps)
    decreases |steps|, 1
  {
    if steps == [] then s else Next(Run(s, steps[..|steps| - 1]), steps[|steps| - 1])
  }

  predicate Legal(s: State, steps: seq<Step>)
    decreases |steps|, 0
  {
    steps == [] ||
    (Legal(s, steps[..|steps| - 1]) && Enabled(Run(s, steps[..|steps| - 1]), steps[|steps| - 1]))
  }

  lemma {:induction false} RunKeeps(s: State, steps: seq<Step>)
    requires Initial(s) && Legal(s, steps)
    ensures Inv(Run(s, steps))
  {
    hide Next, Enabled;
    if steps != [] {
      RunKeeps(s, steps[..|steps| - 1]);
      StepKeeps(Run(s, steps[..|steps| - 1]), steps[|steps| - 1]);
    }
  }

  /** At every moment of every run: each membership but the owner's has exactly one letter,
      each letter exactly one such membership, and each team one owner, its creator. */
  lemma InvitesMatchLetters(s: State, steps: seq<Step>)
    requires Initial(s) && Legal(s, steps)
    ensures var db := Run(s, steps).db;
      && (forall m: Membership :: Guest(db, m) ==> exists id :: IsFor(db, id, m))
      && (forall m, i, j :: IsFor(db, i, m) && IsFor(db, j, m) ==> i == j)
      && (forall id :: id in db.letters ==> exists m :: Guest(db, m) && IsFor(db, id, m))
      && (forall id, m, n :: IsFor(db, id, m) && IsFor(db, id, n) ==> m == n)
      && (forall m: Membership :: m in db.members && db.members[m] == OWNER <==> m.0 in db.teams && db.teams[m.0] == m.1)
      && (forall m :: m in db.members ==> db.members[m] == "owner" || db.members[m] == "member")
  {
    hide Legal, Run, IsFor, Guest;
    RunKeeps(s, steps);
    OneToOne(Run(s, steps).db);
    OneOwner(Run(s, steps).db);
  }

  lemma OneOwner(db: Db)
    requires Good(db)
    ensures forall m: Membership :: m in db.members && db.members[m] == OWNER <==> m.0 in db.teams && db.teams[m.0] == m.1
    ensures forall m :: m in db.members ==> db.members[m] == "owner" || db.members[m] == "member"
  {
    hide LettersGood, GuestsGood;
    forall m: Membership | m.0 in db.teams && db.teams[m.0] == m.1
      ensures m in db.members && db.members[m] == OWNER
    {
      var t := m.0;
      assert (t, db.teams[t]) in db.members && db.members[(t, db.teams[t])] == OWNER;
      assert m == (t, db.teams[t]);
    }
  }
}
