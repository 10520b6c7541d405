/** The two session stores in place (sessions.rs), proved against the functions of `Sessions`. */
module SessionStores {
  import opened Common
  import opened Sessions

  class MemorySession {
    const env: Env
    var items: seq<SessionItem>
    var commits: map<string, string>

    ghost function Log(): MemoryLog
      reads this
    {
      MemoryLog(items, commits)
    }

    constructor (env: Env)
      ensures this.env == env && Log() == EMPTY_LOG
    {
      this.env := env;
      items, commits := [], map[];
    }

    method GetItems(limit: Option<nat>) returns (out: Out)
      ensures (Log(), out) == MemoryStep(env, Log(), Get(limit))
    {
      if limit.None? || limit.value >= |items| {
        return Items(items);
      }
      out := Items(items[|items| - limit.value..]);
    }

    method AddItems(more: seq<SessionItem>) returns (out: Out)
      modifies this
      ensures (Log(), out) == MemoryStep(env, old(Log()), Add(more))
    {
      items := items + more;
      out := Done;
    }

    method AddItemsOnce(commitId: string, payloadDigest: string, more: seq<SessionItem>) returns (out: Out)
      modifies this
      ensures (Log(), out) == MemoryStep(env, old(Log()), AddOnce(commitId, payloadDigest, more))
    {
      var error := CommitError(env, commitId, payloadDigest, more);
      if error.Some? {
        return Failed(error.value);
      }
      if commitId in commits {
        if commits[commitId] != payloadDigest {
          return Failed(CONFLICT);
        }
        return Appended(Replayed);
      }
      items := items + more;
      commits := commits[commitId := payloadDigest];
      out := Appended(Committed);
    }

    method PopItem() returns (out: Out)
      modifies this
      ensures (Log(), out) == MemoryStep(env, old(Log()), Pop)
    {
      if items == [] {
        return Popped(None);
      }
      out := Popped(Some(items[|items| - 1]));
      items := items[..|items| - 1];
    }

    method ClearAll() returns (out: Out)
      modifies this
      ensures (Log(), out) == MemoryStep(env, old(Log()), Clear)
    {
      items := [];
      commits := map[];
      out := Done;
    }
  }

  function Prepend(done: seq<SessionItem>, rest: Option<seq<SessionItem>>): Option<seq<SessionItem>> {
    if rest.None? then None else Some(done + rest.value)
  }

  lemma DecodeStep(env: Env, payloads: seq<Wire>, i: nat, done: seq<SessionItem>)
    requires i < |payloads|
    ensures Prepend(done, DecodeAll(env, payloads[i..])) ==
            var item := Decode(env, payloads[i]);
            if item.None? then None else Prepend(done + [item.value], DecodeAll(env, payloads[i + 1..]))
  {
    hide Decode;
    assert payloads[i..][1..] == payloads[i + 1..];
    var item, rest := Decode(env, payloads[i]), DecodeAll(env, payloads[i + 1..]);
    if item.Some? && rest.Some? {
      assert done + ([item.value] + rest.value) == (done + [item.value]) + rest.value;
    }
  }

  lemma DecodeStart(env: Env, payloads: seq<Wire>)
    ensures Prepend([], DecodeAll(env, payloads)) == DecodeAll(env, payloads)
  {
    hide DecodeAll;
    var all := DecodeAll(env, payloads);
    if all.Some? { assert [] + all.value == all.value; }
  }

  lemma DecodeEnd(env: Env, payloads: seq<Wire>, done: seq<SessionItem>)
    ensures DecodeAll(env, payloads[|payloads|..]) == Some([]) && Prepend(done, Some([])) == Some(done)
  {
    assert payloads[|payloads|..] == [] && done + [] == done;
  }

  class SqliteSessionStore {
    const env: Env
    var table: Table

    constructor (env: Env)
      ensures this.env == env && table == EMPTY_TABLE
    {
      this.env := env;
      table := EMPTY_TABLE;
    }

    method GetItems(session: string, limit: Option<nat>) returns (out: Out)
      ensures (table, out) == SqliteStep(env, table, session, Get(limit))
    {
      var payloads := SelectAscending(table.rows, session, table.nextIndex);
      if limit.Some? {
        var newest := SelectDescending(table.rows, session, table.nextIndex, if limit.value <= I64_MAX then limit.value else I64_MAX);
        payloads := Reverse(newest);
      }
      var items := DecodeRows(payloads);
      out := if items.None? then Failed(JSON_ERROR) else Items(items.value);
    }

    /** Read the rows of a query one by one; the first unreadable payload fails the call. */
    method DecodeRows(payloads: seq<Wire>) returns (r: Option<seq<SessionItem>>)
      ensures r == DecodeAll(env, payloads)
    {
      hide Decode, DecodeAll;
      var items := [];
      assert payloads[0..] == payloads;
      DecodeStart(env, payloads);
      for i := 0 to |payloads|
        invariant DecodeAll(env, payloads) == Prepend(items, DecodeAll(env, payloads[i..]))
      {
        DecodeStep(env, payloads, i, items);
        var item := Decode(env, payloads[i]);
        if item.None? {
          return None;
        }
        items := items + [item.value];
      }
      DecodeEnd(env, payloads, items);
      r := Some(items);
    }

    method AddItems(session: string, items: seq<SessionItem>) returns (out: Out)
      modifies this
      ensures (table, out) == SqliteStep(env, old(table), session, Add(items))
    {
      var transaction := table;
      for i := 0 to |items|
        invariant table == old(table)
        invariant AddAll(env, table, session, items) == AddAll(env, transaction, session, items[i..])
      {
        var payload := Encode(env, ToMessage(items[i]));
        if payload.None? {
          return Failed(JSON_ERROR);
        }
        if transaction.nextIndex > I64_MAX {
          return Failed(FULL);
        }
        assert items[i..][1..] == items[i + 1..];
        transaction := InsertRow(transaction, session, payload.value);
      }
      table := transaction;
      out := Done;
    }

    method AddItemsOnce(session: string, commitId: string, payloadDigest: string, items: seq<SessionItem>) returns (out: Out)
      modifies this
      ensures (table, out) == SqliteStep(env, old(table), session, AddOnce(commitId, payloadDigest, items))
    {
      var error := CommitError(env, commitId, payloadDigest, items);
      if error.Some? {
        return Failed(error.value);
      }
      if (session, commitId) in table.commits {
        if table.commits[(session, commitId)] != payloadDigest {
          return Failed(CONFLICT);
        }
        return Appended(Replayed);
      }
      var payloads := EncodeAll(env, items).value;
      var transaction := table;
      for i := 0 to |payloads|
        invariant table == old(table) && transaction.commits == table.commits
        invariant InsertAll(table, session, payloads) == InsertAll(transaction, session, payloads[i..])
      {
        if transaction.nextIndex > I64_MAX {
          return Failed(FULL);
        }
        assert payloads[i..][1..] == payloads[i + 1..];
        transaction := InsertRow(transaction, session, payloads[i]);
      }
      table := transaction.(commits := transaction.commits[(session, commitId) := payloadDigest]);
      out := Appended(Committed);
    }

    method PopItem(session: string) returns (out: Out)
      modifies this
      ensures (table, out) == SqliteStep(env, old(table), session, Pop)
    {
      var newest := NewestIndex(table.rows, session, table.nextIndex);
      if newest.None? {
        return Popped(None);
      }
      NewestIsLast(table.rows, session, table.nextIndex, session);
      var item := Decode(env, table.rows[newest.value].payload);
      if item.None? {
        return Failed(JSON_ERROR);
      }
      table := table.(rows := table.rows - {newest.value});
      out := Popped(item);
    }

    method ClearSession(session: string) returns (out: Out)
      modifies this
      ensures (table, out) == SqliteStep(env, old(table), session, Clear)
    {
      var keptRows := map i | i in table.rows && table.rows[i].session != session :: table.rows[i];
      var keptCommits := map k | k in table.commits && k.0 != session :: table.commits[k];
      table := table.(rows := keptRows, commits := keptCommits);
      out := Done;
    }
  }
}
