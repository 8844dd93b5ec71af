/** The runtime rows of the profiles: who owns a profile, under which generation, and
    where its mailbox cursor stands. */
module Fencing {

  import opened Options

  /** What an instance shows to prove that a profile is still its own. */
  datatype Token = Token(profileId: int, owner: string, generation: nat)

  datatype Runtime = Runtime(owner: Option<string>, generation: nat, cursor: Option<string>)

  type Rows = map<int, Runtime>

  predicate Matches(rows: Rows, t: Token) {
    t.profileId in rows && rows[t.profileId].owner == Some(t.owner) && rows[t.profileId].generation == t.generation
  }

  /** The writes that reach the table. A profile without a runtime row gets its first
      row with generation one; assigning it to its present owner changes nothing. */
  datatype Op =
    | Assign(profileId: int, instanceId: string)
    | Unassign(profileId: int)
    | StartPoll(token: Token)
    | CompletePoll(token: Token, cursor: Option<string>)

  function Owned(r: Runtime, instanceId: string): Runtime {
    if r.owner == Some(instanceId) then r
    else r.(owner := Some(instanceId), generation := r.generation + 1)
  }

  function Step(rows: Rows, op: Op): Rows {
    match op
    case Assign(id, instanceId) =>
      if instanceId == "" then rows
      else if id in rows then rows[id := Owned(rows[id], instanceId)]
      else rows[id := Runtime(Some(instanceId), 1, None)]
    case Unassign(id) =>
      if id in rows then rows[id := rows[id].(owner := None)] else rows
    case StartPoll(_) => rows
    case CompletePoll(t, cursor) =>
      if Matches(rows, t) && cursor.Some? then rows[t.profileId := rows[t.profileId].(cursor := cursor)] else rows
  }

  function Exec(rows: Rows, ops: seq<Op>): Rows
    decreases ops
  {
    if ops == [] then rows else Exec(Step(rows, ops[0]), ops[1..])
  }

  /** The table as the store object changes it; profiles are the ids that exist. */
  class RuntimeStore {
    var rows: Rows
    const profiles: set<int>

    constructor (profiles: set<int>)
      ensures rows == map[] && this.profiles == profiles
    {
      this.rows, this.profiles := map[], profiles;
    }

    /** None: the instance id is empty or the profile does not exist. */
    method Assign(profileId: int, instanceId: string) returns (token: Option<Token>)
      modifies this
      ensures token.None? <==> instanceId == "" || profileId !in profiles
      ensures token.None? ==> rows == old(rows)
      ensures token.Some? ==> rows == Step(old(rows), Op.Assign(profileId, instanceId))
      ensures token.Some? ==>
                token.value.profileId == profileId && token.value.owner == instanceId && Matches(rows, token.value)
      ensures token.Some? && profileId !in old(rows) ==>
                rows == old(rows)[profileId := Runtime(Some(instanceId), 1, None)]
      ensures token.Some? && profileId in old(rows) && old(rows)[profileId].owner == Some(instanceId) ==>
                rows == old(rows)
      ensures token.Some? && profileId in old(rows) && old(rows)[profileId].owner != Some(instanceId) ==>
                var row := old(rows)[profileId];
                rows == old(rows)[profileId := Runtime(Some(instanceId), row.generation + 1, row.cursor)]
    {
      if instanceId == "" || profileId !in profiles {
        return None;
      }
      if profileId !in rows {
        rows := rows[profileId := Runtime(Some(instanceId), 1, None)];
      } else if rows[profileId].owner != Some(instanceId) {
        var row := rows[profileId];
        rows := rows[profileId := row.(owner := Some(instanceId), generation := row.generation + 1)];
      }
      token := Some(Token(profileId, instanceId, rows[profileId].generation));
    }

    method Unassign(profileId: int)
      modifies this
      ensures rows == Step(old(rows), Op.Unassign(profileId))
      ensures profileId !in old(rows) ==> rows == old(rows)
      ensures profileId in old(rows) ==>
                var row := old(rows)[profileId];
                rows == old(rows)[profileId := Runtime(None, row.generation, row.cursor)]
    {
      if profileId in rows && rows[profileId].owner.Some? {
        rows := rows[profileId := rows[profileId].(owner := None)];
      }
    }

    /** False: the assignment is stale. */
    method StartPoll(token: Token) returns (current: bool)
      ensures current == Matches(rows, token)
      ensures current <==>
                && token.profileId in rows && rows[token.profileId].owner == Some(token.owner)
                && rows[token.profileId].generation == token.generation
    {
      current := token.profileId in rows
        && rows[token.profileId].owner == Some(token.owner)
        && rows[token.profileId].generation == token.generation;
    }

    /** An absent cursor keeps the stored one. */
    method CompletePoll(token: Token, cursor: Option<string>) returns (current: bool)
      modifies this
      ensures current == old(Matches(rows, token))
      ensures rows == Step(old(rows), Op.CompletePoll(token, cursor))
      ensures !current || cursor.None? ==> rows == old(rows)
      ensures current && cursor.Some? ==>
                var row := old(rows)[token.profileId];
                rows == old(rows)[token.profileId := Runtime(row.owner, row.generation, cursor)]
    {
      current := StartPoll(token);
      if current && cursor.Some? {
        rows := rows[token.profileId := rows[token.profileId].(cursor := cursor)];
      }
    }
  }

  lemma {:induction false} ExecConcat(rows: Rows, a: seq<Op>, b: seq<Op>)
    ensures Exec(rows, a + b) == Exec(Exec(rows, a), b)
    decreases a
  {
    if a == [] {
      assert a + b == b;
    } else {
      assert (a + b)[1..] == a[1..] + b;
      ExecConcat(Step(rows, a[0]), a[1..], b);
    }
  }

  /** A token is spent once its generation is over, or is still current but unowned. */
  ghost predicate Spent(rows: Rows, t: Token) {
    && t.profileId in rows
    && rows[t.profileId].generation >= t.generation
    && (rows[t.profileId].generation == t.generation ==> rows[t.profileId].owner.None?)
  }

  /** The token is the current owner's or is spent; there is no way back. */
  lemma {:induction false} SpentForever(rows: Rows, t: Token, ops: seq<Op>)
    ensures Spent(rows, t) ==> Spent(Exec(rows, ops), t)
    ensures Matches(rows, t) ==> Matches(Exec(rows, ops), t) || Spent(Exec(rows, ops), t)
    decreases ops
  {
    if ops != [] {
      SpentForever(Step(rows, ops[0]), t, ops[1..]);
    }
  }

  /** Fencing tokens never revive: a token that matched and then stopped matching
      never matches again, whoever is assigned later, the same instance included. */
  lemma TokensNeverRevive(rows: Rows, before: seq<Op>, between: seq<Op>, after: seq<Op>, t: Token)
    requires Matches(Exec(rows, before), t)
    requires !Matches(Exec(rows, before + between), t)
    ensures !Matches(Exec(rows, before + between + after), t)
  {
    ExecConcat(rows, before, between);
    ExecConcat(rows, before + between, after);
    SpentForever(Exec(rows, before), t, between);
    SpentForever(Exec(rows, before + between), t, after);
  }

  /** Each generation of a profile has at most one owner in a whole history. */
  lemma OneOwnerPerGeneration(rows: Rows, before: seq<Op>, between: seq<Op>, id: int)
    requires id in Exec(rows, before) && id in Exec(rows, before + between)
    requires Exec(rows, before)[id].owner.Some? && Exec(rows, before + between)[id].owner.Some?
    requires Exec(rows, before)[id].generation == Exec(rows, before + between)[id].generation
    ensures Exec(rows, before)[id].owner == Exec(rows, before + between)[id].owner
  {
    var r := Exec(rows, before)[id];
    ExecConcat(rows, before, between);
    SpentForever(Exec(rows, before), Token(id, r.owner.value, r.generation), between);
  }

  lemma CursorStep(rows: Rows, op: Op, id: int)
    requires id in rows
    ensures id in Step(rows, op) && Step(rows, op)[id].generation >= rows[id].generation
    ensures Step(rows, op)[id].cursor != rows[id].cursor ==>
              op.CompletePoll? && op.token.profileId == id && Matches(rows, op.token)
                && Step(rows, op)[id].cursor == op.cursor
  {
  }

  /** The k-th write of a history stores the cursor of a poll that is current then. */
  ghost predicate Writes(rows: Rows, ops: seq<Op>, k: nat, id: int)
    requires k < |ops|
  {
    ops[k].CompletePoll? && ops[k].token.profileId == id && Matches(Exec(rows, ops[..k]), ops[k].token)
  }

  /** Over a whole history generations only grow, and a cursor is as it was or is what the
      poll of the ownership interval current at its write has stored. */
  lemma {:induction false} CursorFenced(rows: Rows, ops: seq<Op>, id: int)
    requires id in rows
    ensures id in Exec(rows, ops) && Exec(rows, ops)[id].generation >= rows[id].generation
    ensures Exec(rows, ops)[id].cursor != rows[id].cursor ==>
              exists k :: 0 <= k < |ops| && Writes(rows, ops, k, id) && Exec(rows, ops)[id].cursor == ops[k].cursor
    decreases |ops|
  {
    if ops != [] {
      var n := |ops| - 1;
      var before := Exec(rows, ops[..n]);
      assert ops == ops[..n] + [ops[n]] && [ops[n]][1..] == [];
      ExecConcat(rows, ops[..n], [ops[n]]);
      assert Exec(rows, ops) == Step(before, ops[n]);
      CursorFenced(rows, ops[..n], id);
      CursorStep(before, ops[n], id);
      if Exec(rows, ops)[id].cursor != before[id].cursor {
        assert Writes(rows, ops, n, id);
      } else if before[id].cursor != rows[id].cursor {
        var k :| 0 <= k < n && Writes(rows, ops[..n], k, id) && before[id].cursor == ops[..n][k].cursor;
        assert ops[..n][..k] == ops[..k];
        assert Writes(rows, ops, k, id);
      }
    }
  }

  /** And the converse: the last current completion with a cursor decides what is stored. */
  lemma {:induction false} LastCompletionWins(rows: Rows, ops: seq<Op>, k: nat, id: int)
    requires id in rows && k < |ops| && Writes(rows, ops, k, id) && ops[k].cursor.Some?
    requires forall j :: k < j < |ops| ==> Writes(rows, ops, j, id) ==> ops[j].cursor.None?
    ensures id in Exec(rows, ops) && Exec(rows, ops)[id].cursor == ops[k].cursor
    decreases |ops|
  {
    var n := |ops| - 1;
    var before := Exec(rows, ops[..n]);
    assert ops == ops[..n] + [ops[n]] && [ops[n]][1..] == [];
    ExecConcat(rows, ops[..n], [ops[n]]);
    assert Exec(rows, ops) == Step(before, ops[n]);
    CursorFenced(rows, ops[..n], id);
    if k < n {
      assert forall j :: 0 <= j < n ==> ops[..n][..j] == ops[..j];
      assert forall j :: 0 <= j < n ==> (Writes(rows, ops[..n], j, id) <==> Writes(rows, ops, j, id));
      LastCompletionWins(rows, ops[..n], k, id);
      NoWrite(before, ops[n], id);
    }
  }

  /** Anything but a current completion with a cursor keeps the cursor. */
  lemma NoWrite(rows: Rows, op: Op, id: int)
    requires id in rows
    requires op.CompletePoll? && op.token.profileId == id && Matches(rows, op.token) ==> op.cursor.None?
    ensures id in Step(rows, op) && Step(rows, op)[id].cursor == rows[id].cursor
  {
  }

  /** A poll that outlived its ownership interval writes nothing, even when its own
      instance has been given the profile again. */
  lemma LatePollWritesNothing(rows: Rows, before: seq<Op>, between: seq<Op>, after: seq<Op>, t: Token,
                              cursor: Option<string>)
    requires Matches(Exec(rows, before), t)
    requires !Matches(Exec(rows, before + between), t)
    ensures Exec(rows, before + between + after + [CompletePoll(t, cursor)]) == Exec(rows, before + between + after)
  {
    TokensNeverRevive(rows, before, between, after, t);
    ExecConcat(rows, before + between + after, [CompletePoll(t, cursor)]);
    assert [CompletePoll(t, cursor)][1..] == [];
  }

  /** Giving a profile up and taking it back opens a new interval. */
  lemma RegainedIsNew(rows: Rows, t: Token)
    requires Matches(rows, t) && t.owner != ""
    ensures var again := Exec(rows, [Unassign(t.profileId), Assign(t.profileId, t.owner)]);
            !Matches(again, t) && Matches(again, t.(generation := t.generation + 1))
  {
    var free, take := Unassign(t.profileId), Assign(t.profileId, t.owner);
    assert [free, take] == [free] + [take];
    ExecConcat(rows, [free], [take]);
    assert [free][1..] == [] && [take][1..] == [];
    assert Exec(rows, [free]) == Step(rows, free);
    assert Exec(Step(rows, free), [take]) == Step(Step(rows, free), take);
  }
}
