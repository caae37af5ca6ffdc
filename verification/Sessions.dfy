/** The Session table: at most one session per account, and which ids validate. */
module Sessions {
  import Upload

  /** A row; its key is the session id. Times are seconds. */
  datatype Session = Session(accountId: string, createdOn: int, expireOn: int)

  type Table = map<string, Session>

  const EXPIRE_SECONDS := 14 * 24 * 60 * 60

  /** The insert, or on a duplicate account the update of its id and times. */
  function Upsert(t: Table, account: string, id: string, now: int): Table {
    (map k | k in t && t[k].accountId != account :: t[k])[id := Session(account, now, now + EXPIRE_SECONDS)]
  }

  predicate Validates(t: Table, id: string, now: int) {
    !Upload.IsBlank(id) && id in t && !(t[id].expireOn < now)
  }

  class SessionGateway {
    var sessions: Table

    constructor ()
      ensures sessions == map[]
    {
      sessions := map[];
    }

    method UpsertSession(account: string, id: string, now: int) returns (ses: Session)
      modifies this
      ensures sessions == Upsert(old(sessions), account, id, now) && ses == sessions[id]
    {
      ses := Session(account, now, now + EXPIRE_SECONDS);
      sessions := map k | k in sessions && sessions[k].accountId != account :: sessions[k];
      sessions := sessions[id := ses];
    }

    method ValidateSessionAndGetUser(id: string, now: int) returns (valid: bool, account: string)
      ensures valid <==> Validates(sessions, id, now)
      ensures account == if valid then sessions[id].accountId else ""
    {
      account := "";
      if Upload.IsBlank(id) || id !in sessions {
        return false, account;
      }
      var ses := sessions[id];
      if ses.expireOn < now {
        return false, account;
      }
      return true, ses.accountId;
    }

    method DeleteSessionByID(id: string)
      modifies this
      ensures sessions == old(sessions) - {id}
    {
      sessions := sessions - {id};
    }
  }

  // --------------------------------------------------------------------- runs

  datatype Op = Login(accountId: string, id: string, at: int) | Logout(id: string)

  function Step(t: Table, op: Op): Table {
    match op
    case Login(account, id, at) => Upsert(t, account, id, at)
    case Logout(id) => t - {id}
  }

  /** The table after a history, oldest first. */
  function After(ops: seq<Op>): Table {
    if |ops| == 0 then map[] else Step(After(ops[..|ops| - 1]), ops[|ops| - 1])
  }

  /** Each login draws an id of its own. */
  ghost predicate FreshIds(ops: seq<Op>) {
    && (forall k :: 0 <= k < |ops| && ops[k].Login? ==> !Upload.IsBlank(ops[k].id))
    && (forall j, k :: 0 <= j < k < |ops| && ops[j].Login? && ops[k].Login? ==> ops[j].id != ops[k].id)
  }

  /** Login k is the last of its account and was not logged out. */
  ghost predicate Current(ops: seq<Op>, k: int) {
    && 0 <= k < |ops| && ops[k].Login?
    && forall j :: k < j < |ops| ==>
         if ops[j].Login? then ops[j].accountId != ops[k].accountId else ops[j].id != ops[k].id
  }

  /** The row of a session comes from the current login that made it. */
  ghost predicate MadeBy(ops: seq<Op>, t: Table, id: string, k: int) {
    Current(ops, k) && ops[k].id == id && id in t
    && t[id] == Session(ops[k].accountId, ops[k].at, ops[k].at + EXPIRE_SECONDS)
  }

  lemma {:induction false} CurrentHasRow(ops: seq<Op>, k: int)
    requires FreshIds(ops) && Current(ops, k)
    ensures MadeBy(ops, After(ops), ops[k].id, k)
  {
    var n := |ops| - 1;
    if k < n {
      var most := ops[..n];
      assert Current(most, k);
      CurrentHasRow(most, k);
      assert ops[n].Login? ==> ops[n].id != ops[k].id;
    }
  }

  lemma {:induction false} RowHasCurrent(ops: seq<Op>, id: string) returns (k: int)
    requires FreshIds(ops) && id in After(ops)
    ensures MadeBy(ops, After(ops), id, k)
  {
    var n := |ops| - 1;
    var most := ops[..n];
    if ops[n].Login? && ops[n].id == id {
      k := n;
    } else {
      k := RowHasCurrent(most, id);
      assert Current(ops, k);
    }
  }

  /** After any history a session id validates exactly when the login that drew it is the
      last one of its account, was not logged out, and is at most fourteen days old
      (1209600 seconds); it stands for the account of that login. */
  lemma ValidatesIff(ops: seq<Op>, id: string, now: int)
    requires FreshIds(ops)
    ensures Validates(After(ops), id, now)
       <==> exists k :: Current(ops, k) && ops[k].id == id && now <= ops[k].at + 1209600
    ensures forall k :: Current(ops, k) && ops[k].id == id ==>
              id in After(ops) && After(ops)[id].accountId == ops[k].accountId
  {
    if Validates(After(ops), id, now) {
      var k := RowHasCurrent(ops, id);
      assert now <= ops[k].at + 1209600;
    }
    forall k | Current(ops, k) && ops[k].id == id
      ensures id in After(ops) && After(ops)[id].accountId == ops[k].accountId
      ensures After(ops)[id].expireOn == ops[k].at + 1209600
    {
      CurrentHasRow(ops, k);
    }
    if k :| Current(ops, k) && ops[k].id == id && now <= ops[k].at + 1209600 {
      assert Validates(After(ops), id, now);
    }
  }

  /** No account ever has two sessions. */
  lemma OnePerAccount(ops: seq<Op>, a: string, b: string)
    requires FreshIds(ops) && a in After(ops) && b in After(ops) && After(ops)[a].accountId == After(ops)[b].accountId
    ensures a == b
  {
    var j := RowHasCurrent(ops, a);
    var k := RowHasCurrent(ops, b);
    assert j == k;
  }

  /** An id replaced by a login or ended by a logout never validates again, whatever
      comes later. */
  lemma EndedForGood(ops: seq<Op>, k: int, later: seq<Op>, now: int)
    requires FreshIds(ops + later) && 0 <= k < |ops| && ops[k].Login? && !Current(ops, k)
    ensures !Validates(After(ops + later), ops[k].id, now)
  {
    var all := ops + later;
    ValidatesIff(all, ops[k].id, now);
    forall j | Current(all, j) && j < |ops| ensures Current(ops, j) {
      assert forall i :: 0 <= i < |ops| ==> all[i] == ops[i];
    }
    assert all[k] == ops[k];
  }
}
