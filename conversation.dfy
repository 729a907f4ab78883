/** `ConversationDatabase`: the `conversations` table as a list of rows in
    insertion order, and the query the voice assistant builds its
    conversation window from. */
module Conversation {
  import opened Common

  /** A `(role, content)` row, and a chat message in memory. */
  datatype Message = Message(role: string, content: string)

  function Min(a: nat, b: nat): nat
  {
    if a <= b then a else b
  }

  function Reverse<T>(s: seq<T>): (r: seq<T>)
    ensures |r| == |s|
    ensures forall i :: 0 <= i < |s| ==> r[i] == s[|s| - 1 - i]
  {
    if |s| == 0 then [] else [s[|s| - 1]] + Reverse(s[..|s| - 1])
  }

  /** `SELECT role, content ... ORDER BY timestamp DESC LIMIT limit`: the
      newest `limit` rows, newest first. Rows are taken to be timestamped in
      insertion order. */
  function NewestFirst(rows: seq<Message>, limit: nat): (r: seq<Message>)
    ensures |r| == Min(limit, |rows|)
    ensures forall i :: 0 <= i < |r| ==> r[i] == rows[|rows| - 1 - i]
  {
    if limit == 0 || |rows| == 0 then []
    else [rows[|rows| - 1]] + NewestFirst(rows[..|rows| - 1], limit - 1)
  }

  /** Reading the newest rows back in reverse gives the latest rows in the
      order they were written. */
  lemma NewestFirstReversed(rows: seq<Message>, limit: nat)
    ensures Reverse(NewestFirst(rows, limit)) == rows[|rows| - Min(limit, |rows|)..]
  {
    var r := Reverse(NewestFirst(rows, limit));
    var suffix := rows[|rows| - Min(limit, |rows|)..];
    assert |r| == |suffix|;
    forall i | 0 <= i < |r|
      ensures r[i] == suffix[i]
    {
    }
  }

  class ConversationDatabase {
    var rows: seq<Message>
    /** `create_table` is the only method that creates the table. */
    var tableExists: bool

    /** `__init__` on a database file that holds `initialRows` (if the table
        exists at all). */
    constructor (initialRows: seq<Message>, hasTable: bool)
      ensures rows == (if hasTable then initialRows else [])
      ensures tableExists == hasTable
    {
      rows := if hasTable then initialRows else [];
      tableExists := hasTable;
    }

    /** `create_table`: `CREATE TABLE IF NOT EXISTS`. */
    method CreateTable()
      modifies this
      ensures tableExists
      ensures rows == old(rows)
    {
      tableExists := true;
    }

    /** `add_message`: the insert raises when the table is missing. */
    method AddMessage(role: string, content: string) returns (raised: bool)
      modifies this`rows
      ensures raised <==> !tableExists
      ensures rows == if raised then old(rows) else old(rows) + [Message(role, content)]
    {
      if !tableExists {
        return true;
      }
      rows := rows + [Message(role, content)];
      raised := false;
    }

    /** `get_conversation_history(limit)`. */
    method GetConversationHistory(limit: nat) returns (r: Outcome<seq<Message>>)
      ensures r.Raised? <==> !tableExists
      ensures r.Returned? ==> r.value == NewestFirst(rows, limit)
    {
      if !tableExists {
        return Raised;
      }
      r := Returned(NewestFirst(rows, limit));
    }

    /** `clear_history`. */
    method ClearHistory() returns (raised: bool)
      modifies this`rows
      ensures raised <==> !tableExists
      ensures rows == if raised then old(rows) else []
    {
      if !tableExists {
        return true;
      }
      rows := [];
      raised := false;
    }
  }
}
