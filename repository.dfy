/** The message-history store and user registry (`Database` in
    src/database/repository.py), over an in-memory `users` table and a
    `messages` table kept in insertion order.

    The SQL orders rows by `created_at`; this model orders them by insertion
    (the serial `id`), so rows inserted in the same instant, whose SQL order
    is unspecified, are taken in insertion order. */
module Repository {

  import opened Wrappers
  import opened Seqs
  import opened Text
  import opened Constants

  /** A row of `users`. */
  datatype UserRow = UserRow(username: Option<string>, firstName: Option<string>, lastName: Option<string>)

  /** A row of `messages`. `id` is the serial number the store assigns; it
      also stands for `created_at`. */
  datatype Message = Message(id: nat, userId: int, role: string, content: string, model: Option<string>)

  /** One `{"role": ..., "content": ...}` entry of a prompt. */
  datatype ChatTurn = ChatTurn(role: string, content: string)

  /** The dictionary `get_user_stats` returns; the timestamps are message ids. */
  datatype Stats = Stats(total: nat, userMsgs: nat, botMsgs: nat, firstMsg: Option<nat>, lastMsg: Option<nat>)

  /** Messages in the order they were stored have increasing ids. */
  ghost predicate IdsIncreasing(msgs: seq<Message>)
  {
    forall i, j :: 0 <= i < j < |msgs| ==> msgs[i].id < msgs[j].id
  }

  /** Everything of `msgs` that precedes `last` has a smaller id, so appending
      `last` keeps the ids increasing. */
  lemma AppendKeepsIdsIncreasing(msgs: seq<Message>, last: Message)
    requires IdsIncreasing(msgs)
    requires forall m :: m in msgs ==> m.id < last.id
    ensures IdsIncreasing(msgs + [last])
  {
  }

  // ---------------------------------------------------------------------
  // Selections over the log (defined on the last row, as rows are appended)

  /** The rows of user `u` (`WHERE user_id = u`), in stored order. */
  function RowsOf(msgs: seq<Message>, u: int): seq<Message>
  {
    if msgs == [] then []
    else
      var init, last := msgs[..|msgs| - 1], msgs[|msgs| - 1];
      if last.userId == u then RowsOf(init, u) + [last] else RowsOf(init, u)
  }

  /** The rows of every user but `u` (what `DELETE ... WHERE user_id = u` leaves). */
  function OthersOf(msgs: seq<Message>, u: int): seq<Message>
  {
    if msgs == [] then []
    else
      var init, last := msgs[..|msgs| - 1], msgs[|msgs| - 1];
      if last.userId != u then OthersOf(init, u) + [last] else OthersOf(init, u)
  }

  /** Splitting off the last row of a non-empty log. */
  lemma SplitLast(msgs: seq<Message>)
    requires msgs != []
    ensures msgs == msgs[..|msgs| - 1] + [msgs[|msgs| - 1]]
    ensures forall m :: m in msgs <==> m in msgs[..|msgs| - 1] || m == msgs[|msgs| - 1]
    ensures IdsIncreasing(msgs) ==>
      IdsIncreasing(msgs[..|msgs| - 1]) && forall m :: m in msgs[..|msgs| - 1] ==> m.id < msgs[|msgs| - 1].id
  {
  }

  /** `RowsOf` selects exactly the rows of `u` and keeps their order. */
  lemma {:induction false} RowsOfFacts(msgs: seq<Message>, u: int)
    ensures |RowsOf(msgs, u)| <= |msgs|
    ensures forall m :: m in RowsOf(msgs, u) <==> m in msgs && m.userId == u
    ensures IdsIncreasing(msgs) ==> IdsIncreasing(RowsOf(msgs, u))
  {
    if msgs != [] {
      SplitLast(msgs);
      RowsOfFacts(msgs[..|msgs| - 1], u);
    }
  }

  /** `OthersOf` selects exactly the rows of users other than `u` and keeps their order. */
  lemma {:induction false} OthersOfFacts(msgs: seq<Message>, u: int)
    ensures forall m :: m in OthersOf(msgs, u) <==> m in msgs && m.userId != u
    ensures IdsIncreasing(msgs) ==> IdsIncreasing(OthersOf(msgs, u))
  {
    if msgs != [] {
      SplitLast(msgs);
      OthersOfFacts(msgs[..|msgs| - 1], u);
    }
  }

  /** Appending a row adds it to its owner's rows only. */
  lemma RowsOfAppend(msgs: seq<Message>, m: Message, v: int)
    ensures RowsOf(msgs + [m], v) == if m.userId == v then RowsOf(msgs, v) + [m] else RowsOf(msgs, v)
  {
    assert (msgs + [m])[..|msgs|] == msgs;
  }

  // ---------------------------------------------------------------------
  // get_history

  /** The SQL filter `content IS NOT NULL AND LENGTH(TRIM(content)) > 0`
      (content is never null in this model). */
  predicate SqlNonBlank(m: Message)
  {
    SqlTrim(m.content) != []
  }

  /** The rows that pass the SQL filter, in order. */
  function SqlFiltered(rows: seq<Message>): seq<Message>
  {
    if rows == [] then []
    else
      var init, last := rows[..|rows| - 1], rows[|rows| - 1];
      if SqlNonBlank(last) then SqlFiltered(init) + [last] else SqlFiltered(init)
  }

  /** `SqlFiltered` keeps exactly the rows passing the filter, in order. */
  lemma {:induction false} SqlFilteredFacts(rows: seq<Message>)
    ensures |SqlFiltered(rows)| <= |rows|
    ensures forall m :: m in SqlFiltered(rows) <==> m in rows && SqlNonBlank(m)
    ensures IdsIncreasing(rows) ==> IdsIncreasing(SqlFiltered(rows))
  {
    if rows != [] {
      SplitLast(rows);
      SqlFilteredFacts(rows[..|rows| - 1]);
    }
  }

  /** What the SELECT returns: the user's rows passing the filter, newest
      first (`ORDER BY created_at DESC`), at most `HISTORY_MESSAGES_LIMIT`. */
  function RecentRows(msgs: seq<Message>, u: int): seq<Message>
  {
    Take(Reverse(SqlFiltered(RowsOf(msgs, u))), HISTORY_MESSAGES_LIMIT)
  }

  /** The window the loop walks: the selected rows put back oldest first. */
  function Window(msgs: seq<Message>, u: int): seq<Message>
  {
    Reverse(RecentRows(msgs, u))
  }

  /** Every row of `rows` whose stripped content is non-empty, as a prompt
      entry carrying the stripped content, in order. */
  function Stripped(rows: seq<Message>): seq<ChatTurn>
  {
    if rows == [] then []
    else
      var c := Strip(rows[0].content);
      (if c == [] then [] else [ChatTurn(rows[0].role, c)]) + Stripped(rows[1..])
  }

  /** Each stripped entry is the non-empty stripped content of one of the rows. */
  lemma {:induction false} StrippedFacts(rows: seq<Message>)
    ensures |Stripped(rows)| <= |rows|
    ensures forall t :: t in Stripped(rows) ==>
      t.content != [] && exists m :: m in rows && t == ChatTurn(m.role, Strip(m.content))
  {
    if rows != [] {
      StrippedFacts(rows[1..]);
      forall t | t in Stripped(rows)
        ensures t.content != [] && exists m :: m in rows && t == ChatTurn(m.role, Strip(m.content))
      {
        if t !in Stripped(rows[1..]) {
          assert t == ChatTurn(rows[0].role, Strip(rows[0].content));
        } else {
          var m :| m in rows[1..] && t == ChatTurn(m.role, Strip(m.content));
          assert m in rows;
        }
      }
    }
  }

  /** The number of characters of the contents of `turns`. */
  function TotalChars(turns: seq<ChatTurn>): nat
  {
    if turns == [] then 0 else |turns[0].content| + TotalChars(turns[1..])
  }

  lemma {:induction false} TotalCharsAppend(a: seq<ChatTurn>, b: seq<ChatTurn>)
    ensures TotalChars(a + b) == TotalChars(a) + TotalChars(b)
  {
    if a == [] {
      assert a + b == b;
    } else {
      assert (a + b)[0] == a[0] && (a + b)[1..] == a[1..] + b;
      TotalCharsAppend(a[1..], b);
    }
  }

  /** What the loop of `get_history` appends, given the characters already
      counted: stripped non-empty entries, until the first one that would take
      the running total over `MAX_HISTORY_CHARS`, where it stops. */
  function Accumulate(rows: seq<Message>, total: int): seq<ChatTurn>
  {
    if rows == [] then []
    else
      var c := Strip(rows[0].content);
      if c == [] then Accumulate(rows[1..], total)
      else if total + |c| > MAX_HISTORY_CHARS then []
      else [ChatTurn(rows[0].role, c)] + Accumulate(rows[1..], total + |c|)
  }

  /** One step of `Accumulate` at position `i`. */
  lemma AccumulateAt(rows: seq<Message>, i: nat, total: int, c: string)
    requires i < |rows| && c == Strip(rows[i].content)
    ensures c == [] ==> Accumulate(rows[i..], total) == Accumulate(rows[i + 1..], total)
    ensures c != [] && total + |c| > MAX_HISTORY_CHARS ==> Accumulate(rows[i..], total) == []
    ensures c != [] && total + |c| <= MAX_HISTORY_CHARS ==>
      Accumulate(rows[i..], total) == [ChatTurn(rows[i].role, c)] + Accumulate(rows[i + 1..], total + |c|)
  {
    assert rows[i..][0] == rows[i] && rows[i..][1..] == rows[i + 1..];
  }

  /** The stripped entries of `rows` are those of its first row, then those of the rest. */
  lemma StrippedCons(rows: seq<Message>)
    requires rows != []
    ensures Strip(rows[0].content) == [] ==> Stripped(rows) == Stripped(rows[1..])
    ensures Strip(rows[0].content) != [] ==>
      Stripped(rows) == [ChatTurn(rows[0].role, Strip(rows[0].content))] + Stripped(rows[1..])
  {
  }

  /** The loop's result is a prefix of the stripped entries, stays within the
      budget, and stops only where the next entry would overflow it. */
  lemma {:induction false} AccumulateFacts(rows: seq<Message>, total: int)
    ensures Accumulate(rows, total) <= Stripped(rows)
    ensures total <= MAX_HISTORY_CHARS ==> total + TotalChars(Accumulate(rows, total)) <= MAX_HISTORY_CHARS
    ensures |Accumulate(rows, total)| < |Stripped(rows)| ==>
      total + TotalChars(Accumulate(rows, total)) + |Stripped(rows)[|Accumulate(rows, total)|].content| > MAX_HISTORY_CHARS
  {
    if rows != [] {
      StrippedCons(rows);
      var c := Strip(rows[0].content);
      if c == [] {
        AccumulateFacts(rows[1..], total);
      } else if total + |c| <= MAX_HISTORY_CHARS {
        var t, rest := ChatTurn(rows[0].role, c), Accumulate(rows[1..], total + |c|);
        AccumulateFacts(rows[1..], total + |c|);
        assert Accumulate(rows, total) == [t] + rest;
        TotalCharsAppend([t], rest);
        assert TotalChars([t]) == |c|;
      }
    }
  }

  /** The history `get_history` returns for user `u`. */
  function HistoryOf(msgs: seq<Message>, u: int): seq<ChatTurn>
  {
    Accumulate(Window(msgs, u), 0)
  }

  /** The window is the user's newest `HISTORY_MESSAGES_LIMIT` rows that pass
      the SQL filter, oldest first. */
  lemma WindowIsNewestFiltered(msgs: seq<Message>, u: int)
    ensures Window(msgs, u) == Newest(SqlFiltered(RowsOf(msgs, u)), HISTORY_MESSAGES_LIMIT)
    ensures |Window(msgs, u)| <= HISTORY_MESSAGES_LIMIT
    ensures forall m :: m in Window(msgs, u) ==> m in msgs && m.userId == u && SqlNonBlank(m)
  {
    var rows := RowsOf(msgs, u);
    var c := SqlFiltered(rows);
    ReverseOfNewestFirst(c, HISTORY_MESSAGES_LIMIT);
    RowsOfFacts(msgs, u);
    SqlFilteredFacts(rows);
    var w := Window(msgs, u);
    forall m | m in w ensures m in c {
      var i :| 0 <= i < |w| && w[i] == m;
      assert m == c[|c| - |w| + i];
    }
  }

  /** The newest rows of an increasing sequence are increasing. */
  lemma NewestKeepsIdsIncreasing(rows: seq<Message>, k: nat)
    requires IdsIncreasing(rows)
    ensures IdsIncreasing(Newest(rows, k))
  {
    var w := Newest(rows, k);
    var d := |rows| - |w|;
    forall i, j | 0 <= i < j < |w| ensures w[i].id < w[j].id {
      assert w[i] == rows[d + i] && w[j] == rows[d + j];
    }
  }

  /** Read in insertion order, the window's ids increase: oldest first. */
  lemma WindowIsOldestFirst(msgs: seq<Message>, u: int)
    requires IdsIncreasing(msgs)
    ensures IdsIncreasing(Window(msgs, u))
  {
    var rows := RowsOf(msgs, u);
    WindowIsNewestFiltered(msgs, u);
    RowsOfFacts(msgs, u);
    SqlFilteredFacts(rows);
    NewestKeepsIdsIncreasing(SqlFiltered(rows), HISTORY_MESSAGES_LIMIT);
  }

  /** What `get_history` promises: at most `HISTORY_MESSAGES_LIMIT` entries,
      within `MAX_HISTORY_CHARS` characters, each the non-empty stripped text
      of one of the user's own rows, and a prefix of the stripped window that
      stops just before the first entry that would overflow the budget. */
  lemma HistoryBounds(msgs: seq<Message>, u: int)
    ensures |HistoryOf(msgs, u)| <= HISTORY_MESSAGES_LIMIT
    ensures TotalChars(HistoryOf(msgs, u)) <= MAX_HISTORY_CHARS
    ensures HistoryOf(msgs, u) <= Stripped(Window(msgs, u))
    ensures forall t :: t in HistoryOf(msgs, u) ==>
      t.content != [] && exists m :: m in RowsOf(msgs, u) && t == ChatTurn(m.role, Strip(m.content))
    ensures |HistoryOf(msgs, u)| < |Stripped(Window(msgs, u))| ==>
      TotalChars(HistoryOf(msgs, u)) + |Stripped(Window(msgs, u))[|HistoryOf(msgs, u)|].content| > MAX_HISTORY_CHARS
  {
    var w := Window(msgs, u);
    WindowIsNewestFiltered(msgs, u);
    AccumulateFacts(w, 0);
    StrippedFacts(w);
    RowsOfFacts(msgs, u);
    var h := HistoryOf(msgs, u);
    var s := Stripped(w);
    forall t | t in h
      ensures t.content != [] && exists m :: m in RowsOf(msgs, u) && t == ChatTurn(m.role, Strip(m.content))
    {
      assert t in s;
    }
  }

  /** Prefix truncation: when the running total of the stripped window first
      exceeds the budget at entry `k`, the history is exactly the entries
      before `k`; no later entry is kept. */
  lemma {:induction false} BudgetCutsAtFirstOverflow(rows: seq<Message>, k: nat)
    requires k < |Stripped(rows)|
    requires TotalChars(Stripped(rows)[..k]) <= MAX_HISTORY_CHARS < TotalChars(Stripped(rows)[..k + 1])
    ensures Accumulate(rows, 0) == Stripped(rows)[..k]
  {
    AccumulateFacts(rows, 0);
    PrefixStopsAtBudget(Stripped(rows), Accumulate(rows, 0), k);
  }

  /** A prefix `r` of `s` that fits the budget and stops only where the next
      entry would overflow is the longest prefix that fits. */
  lemma PrefixStopsAtBudget(s: seq<ChatTurn>, r: seq<ChatTurn>, k: nat)
    requires k < |s| && r <= s
    requires TotalChars(s[..k]) <= MAX_HISTORY_CHARS < TotalChars(s[..k + 1])
    requires TotalChars(r) <= MAX_HISTORY_CHARS
    requires |r| < |s| ==> TotalChars(r) + |s[|r|].content| > MAX_HISTORY_CHARS
    ensures r == s[..k]
  {
    if |r| > k {
      TotalCharsMonotone(s[..k + 1], r);
    } else if |r| < k {
      assert s[..|r| + 1] == r + [s[|r|]];
      TotalCharsAppend(r, [s[|r|]]);
      TotalCharsMonotone(s[..|r| + 1], s[..k]);
    }
  }

  /** Extending a sequence of turns never lowers its character count. */
  lemma TotalCharsMonotone(a: seq<ChatTurn>, b: seq<ChatTurn>)
    requires a <= b
    ensures TotalChars(a) <= TotalChars(b)
  {
    assert b == a + b[|a|..];
    TotalCharsAppend(a, b[|a|..]);
  }

  /** Rows kept whole and in order: when every stripped entry fits in the
      budget, the loop keeps all of them. */
  lemma {:induction false} AccumulateAllFit(rows: seq<Message>, total: int)
    requires total + TotalChars(Stripped(rows)) <= MAX_HISTORY_CHARS
    ensures Accumulate(rows, total) == Stripped(rows)
  {
    if rows != [] {
      StrippedCons(rows);
      var c := Strip(rows[0].content);
      if c != [] {
        TotalCharsAppend([ChatTurn(rows[0].role, c)], Stripped(rows[1..]));
        assert TotalChars([ChatTurn(rows[0].role, c)]) == |c|;
      }
      AccumulateAllFit(rows[1..], total + |c|);
    }
  }

  /** Text that is not empty and has no surrounding whitespace. */
  predicate CleanText(s: string)
  {
    s != [] && Strip(s) == s
  }

  /** A message whose content is clean text. */
  predicate Clean(m: Message)
  {
    CleanText(m.content)
  }

  /** Each row as the prompt entry it becomes. */
  function Turns(rows: seq<Message>): (r: seq<ChatTurn>)
    ensures |r| == |rows|
    ensures forall i :: 0 <= i < |rows| ==> r[i] == ChatTurn(rows[i].role, rows[i].content)
  {
    if rows == [] then [] else [ChatTurn(rows[0].role, rows[0].content)] + Turns(rows[1..])
  }

  /** Clean rows strip to themselves. */
  lemma {:induction false} CleanRowsStripToThemselves(rows: seq<Message>)
    requires forall m :: m in rows ==> Clean(m)
    ensures Stripped(rows) == Turns(rows)
  {
    if rows != [] {
      assert rows[0] in rows;
      StrippedCons(rows);
      CleanRowsStripToThemselves(rows[1..]);
    }
  }

  /** Clean rows all pass the SQL filter. */
  lemma {:induction false} CleanRowsPassSqlFilter(rows: seq<Message>)
    requires forall m :: m in rows ==> Clean(m)
    ensures SqlFiltered(rows) == rows
  {
    if rows != [] {
      SplitLast(rows);
      var last := rows[|rows| - 1];
      CleanRowsPassSqlFilter(rows[..|rows| - 1]);
      assert Clean(last);
      SqlBlankIsStripBlank(last.content);
      assert SqlNonBlank(last);
    }
  }

  /** A user with at most `HISTORY_MESSAGES_LIMIT` stored messages, all with
      clean content and within the budget, gets back exactly those messages
      in the order they were stored. */
  lemma ShortHistoryIsComplete(msgs: seq<Message>, u: int)
    requires |RowsOf(msgs, u)| <= HISTORY_MESSAGES_LIMIT
    requires forall m :: m in RowsOf(msgs, u) ==> Clean(m)
    requires TotalChars(Turns(RowsOf(msgs, u))) <= MAX_HISTORY_CHARS
    ensures HistoryOf(msgs, u) == Turns(RowsOf(msgs, u))
  {
    var rows := RowsOf(msgs, u);
    CleanRowsStripToThemselves(rows);
    CleanRowsPassSqlFilter(rows);
    WindowIsNewestFiltered(msgs, u);
    assert Window(msgs, u) == rows;
    AccumulateAllFit(rows, 0);
  }

  /** A user with more messages, all clean and short, gets back exactly the
      newest `HISTORY_MESSAGES_LIMIT`, oldest first. */
  lemma LongHistoryIsNewestWindow(msgs: seq<Message>, u: int)
    requires forall m :: m in RowsOf(msgs, u) ==> Clean(m)
    requires TotalChars(Turns(Newest(RowsOf(msgs, u), HISTORY_MESSAGES_LIMIT))) <= MAX_HISTORY_CHARS
    ensures HistoryOf(msgs, u) == Turns(Newest(RowsOf(msgs, u), HISTORY_MESSAGES_LIMIT))
  {
    var rows := RowsOf(msgs, u);
    CleanRowsPassSqlFilter(rows);
    WindowIsNewestFiltered(msgs, u);
    var w := Window(msgs, u);
    CleanRowsStripToThemselves(w);
    AccumulateAllFit(w, 0);
  }

  /** A user question saved before the assistant's answer is read back
      before it: both come back, in the order they were saved. */
  lemma SavedExchangeReadsBackInOrder(msgs: seq<Message>, u: int, q: string, a: string, model: string, id: nat)
    requires RowsOf(msgs, u) == []
    requires CleanText(q) && CleanText(a) && |q| + |a| <= MAX_HISTORY_CHARS
    ensures HistoryOf(msgs + [Message(id, u, USER_ROLE, q, None), Message(id + 1, u, ASSISTANT_ROLE, a, Some(model))], u)
      == [ChatTurn(USER_ROLE, q), ChatTurn(ASSISTANT_ROLE, a)]
  {
    var m1, m2 := Message(id, u, USER_ROLE, q, None), Message(id + 1, u, ASSISTANT_ROLE, a, Some(model));
    var after := msgs + [m1, m2];
    TwoRowsAppended(msgs, m1, m2, u);
    TwoTurns(m1, m2);
    ShortHistoryIsComplete(after, u);
  }

  /** Two rows of a user without rows are, after appending, all the user's rows. */
  lemma TwoRowsAppended(msgs: seq<Message>, m1: Message, m2: Message, u: int)
    requires RowsOf(msgs, u) == [] && m1.userId == u && m2.userId == u
    ensures RowsOf(msgs + [m1, m2], u) == [m1, m2]
  {
    assert msgs + [m1, m2] == (msgs + [m1]) + [m2];
    RowsOfAppend(msgs, m1, u);
    RowsOfAppend(msgs + [m1], m2, u);
  }

  /** The turns of two rows and their length in characters. */
  lemma TwoTurns(m1: Message, m2: Message)
    ensures Turns([m1, m2]) == [ChatTurn(m1.role, m1.content), ChatTurn(m2.role, m2.content)]
    ensures TotalChars(Turns([m1, m2])) == |m1.content| + |m2.content|
  {
    var t := Turns([m1, m2]);
    assert t[1..] == [ChatTurn(m2.role, m2.content)];
    assert TotalChars(t[1..][1..]) == 0 by { assert t[1..][1..] == []; }
  }

  // ---------------------------------------------------------------------
  // trim_history

  /** The log after `trim_history(u, k)`: the other users' rows, and the `k`
      newest rows of `u` (`OFFSET k` of the newest-first order is deleted). */
  function KeepNewest(msgs: seq<Message>, u: int, k: nat): seq<Message>
  {
    if msgs == [] then []
    else
      var init, last := msgs[..|msgs| - 1], msgs[|msgs| - 1];
      if last.userId == u && k == 0 then KeepNewest(init, u, 0)
      else KeepNewest(init, u, if last.userId == u then k - 1 else k) + [last]
  }

  /** Trimming only deletes rows, and what it keeps stays in order. */
  lemma {:induction false} KeepNewestFacts(msgs: seq<Message>, u: int, k: nat)
    ensures forall m :: m in KeepNewest(msgs, u, k) ==> m in msgs
    ensures IdsIncreasing(msgs) ==> IdsIncreasing(KeepNewest(msgs, u, k))
  {
    if msgs != [] {
      SplitLast(msgs);
      var last := msgs[|msgs| - 1];
      KeepNewestFacts(msgs[..|msgs| - 1], u, if last.userId == u && k > 0 then k - 1 else k);
    }
  }

  /** Trimming keeps exactly the `k` newest rows of `u`, in order, and every
      row of every other user. */
  lemma {:induction false} KeepNewestRows(msgs: seq<Message>, u: int, k: nat, v: int)
    ensures RowsOf(KeepNewest(msgs, u, k), v) ==
      if v == u then Newest(RowsOf(msgs, u), k) else RowsOf(msgs, v)
  {
    if msgs != [] {
      var init, last := msgs[..|msgs| - 1], msgs[|msgs| - 1];
      assert msgs == init + [last];
      RowsOfAppend(init, last, v);
      RowsOfAppend(init, last, u);
      if last.userId == u && k == 0 {
        KeepNewestRows(init, u, 0, v);
      } else {
        var k' := if last.userId == u then k - 1 else k;
        KeepNewestRows(init, u, k', v);
        RowsOfAppend(KeepNewest(init, u, k'), last, v);
        if v == u && last.userId == u {
          NewestAppend(RowsOf(init, u), last, k);
        }
      }
    }
  }

  /** After trimming, `u` has at most `k` rows. */
  lemma TrimBound(msgs: seq<Message>, u: int, k: nat)
    ensures |RowsOf(KeepNewest(msgs, u, k), u)| <= k
  {
    KeepNewestRows(msgs, u, k, u);
  }

  /** Trimming a user who has at most `k` rows deletes nothing. */
  lemma {:induction false} TrimWithinBoundIsNoOp(msgs: seq<Message>, u: int, k: nat)
    requires |RowsOf(msgs, u)| <= k
    ensures KeepNewest(msgs, u, k) == msgs
  {
    if msgs != [] {
      var init, last := msgs[..|msgs| - 1], msgs[|msgs| - 1];
      assert msgs == init + [last];
      RowsOfAppend(init, last, u);
      TrimWithinBoundIsNoOp(init, u, if last.userId == u then k - 1 else k);
    }
  }

  /** Trimming twice with the same bound is trimming once. */
  lemma TrimIdempotent(msgs: seq<Message>, u: int, k: nat)
    ensures KeepNewest(KeepNewest(msgs, u, k), u, k) == KeepNewest(msgs, u, k)
  {
    TrimBound(msgs, u, k);
    TrimWithinBoundIsNoOp(KeepNewest(msgs, u, k), u, k);
  }

  // ---------------------------------------------------------------------
  // delete_user_history

  lemma {:induction false} OthersOfRows(msgs: seq<Message>, u: int, v: int)
    ensures RowsOf(OthersOf(msgs, u), v) == if v == u then [] else RowsOf(msgs, v)
  {
    if msgs != [] {
      var init, last := msgs[..|msgs| - 1], msgs[|msgs| - 1];
      assert msgs == init + [last];
      RowsOfAppend(init, last, v);
      OthersOfRows(init, u, v);
      if last.userId != u {
        RowsOfAppend(OthersOf(init, u), last, v);
      }
    }
  }

  /** After `delete_user_history(u)` the history of `u` is empty and every
      other user keeps all of their rows. */
  lemma DeleteClearsHistory(msgs: seq<Message>, u: int, v: int)
    ensures HistoryOf(OthersOf(msgs, u), u) == []
    ensures v != u ==> RowsOf(OthersOf(msgs, u), v) == RowsOf(msgs, v)
  {
    OthersOfRows(msgs, u, u);
    OthersOfRows(msgs, u, v);
  }

  // ---------------------------------------------------------------------
  // get_user_stats

  /** `COUNT(*)` of the rows with the given role. */
  function CountRole(rows: seq<Message>, role: string): (n: nat)
    ensures n <= |rows|
  {
    if rows == [] then 0
    else (if rows[0].role == role then 1 else 0) + CountRole(rows[1..], role)
  }

  lemma {:induction false} RoleCountsWithinTotal(rows: seq<Message>)
    ensures CountRole(rows, USER_ROLE) + CountRole(rows, ASSISTANT_ROLE) <= |rows|
  {
    if rows != [] {
      RoleCountsWithinTotal(rows[1..]);
    }
  }

  /** `get_user_stats(u)`: the number of `u`'s rows, of them those with role
      "user" and "assistant", and the first and last creation stamps, absent
      exactly when `u` has no rows. */
  function UserStats(msgs: seq<Message>, u: int): (s: Stats)
    ensures s.total == |RowsOf(msgs, u)|
    ensures s.userMsgs + s.botMsgs <= s.total
    ensures s.firstMsg.None? <==> s.total == 0
    ensures s.lastMsg.None? <==> s.total == 0
    ensures IdsIncreasing(msgs) && s.total > 0 ==>
      forall m :: m in RowsOf(msgs, u) ==> s.firstMsg.value <= m.id <= s.lastMsg.value
  {
    var rows := RowsOf(msgs, u);
    RoleCountsWithinTotal(rows);
    RowsOfFacts(msgs, u);
    Stats(|rows|, CountRole(rows, USER_ROLE), CountRole(rows, ASSISTANT_ROLE),
          if rows == [] then None else Some(rows[0].id),
          if rows == [] then None else Some(rows[|rows| - 1].id))
  }

  /** After `trim_history(u, k)` the total that `get_user_stats(u)` reports is
      at most `k`; other users' statistics are unchanged. */
  lemma TrimBoundsStats(msgs: seq<Message>, u: int, k: nat, v: int)
    ensures UserStats(KeepNewest(msgs, u, k), u).total <= k
    ensures v != u ==> UserStats(KeepNewest(msgs, u, k), v) == UserStats(msgs, v)
  {
    KeepNewestRows(msgs, u, k, u);
    KeepNewestRows(msgs, u, k, v);
  }

  // ---------------------------------------------------------------------
  // The store

  class Database {
    var users: map<int, UserRow>
    var messages: seq<Message>
    /** The next value of the `BIGSERIAL` id sequence. */
    var nextId: nat

    /** Ids follow insertion order and every message belongs to a
        registered user (the foreign key `REFERENCES users(user_id)`). */
    ghost predicate Valid()
      reads this
    {
      && IdsIncreasing(messages)
      && (forall m :: m in messages ==> m.id < nextId)
      && (forall m :: m in messages ==> m.userId in users)
    }

    constructor ()
      ensures Valid()
      ensures users == map[] && messages == []
    {
      users := map[];
      messages := [];
      nextId := 1;
    }

    /** `ensure_user`: insert, or on conflict overwrite all three display
        attributes with the given values (last write wins). */
    method EnsureUser(u: int, username: Option<string>, firstName: Option<string>, lastName: Option<string>)
      requires Valid()
      modifies this`users
      ensures Valid()
      ensures users == old(users)[u := UserRow(username, firstName, lastName)]
      ensures u in users && users[u] == UserRow(username, firstName, lastName)
      ensures forall v :: v != u && v in old(users) ==> v in users && users[v] == old(users)[v]
    {
      users := users[u := UserRow(username, firstName, lastName)];
    }

    /** `save_message`: append one row; refused (`ok` false, nothing stored)
        when `u` is not a registered user, as the foreign key refuses it. */
    method SaveMessage(u: int, role: string, content: string, model: Option<string>) returns (ok: bool)
      requires Valid()
      modifies this`messages, this`nextId
      ensures Valid()
      ensures ok <==> u in users
      ensures ok ==> messages == old(messages) + [Message(old(nextId), u, role, content, model)]
      ensures ok ==> nextId == old(nextId) + 1
      ensures !ok ==> messages == old(messages) && nextId == old(nextId)
    {
      ok := u in users;
      if ok {
        var m := Message(nextId, u, role, content, model);
        AppendKeepsIdsIncreasing(messages, m);
        messages := messages + [m];
        nextId := nextId + 1;
      }
    }

    /** `get_history`: the SELECT, reversed, then the loop that strips each
        entry, skips blank ones and stops at the first one that overflows the
        character budget. */
    method GetHistory(u: int) returns (history: seq<ChatTurn>)
      ensures history == HistoryOf(messages, u)
    {
      var rows := Reverse(RecentRows(messages, u));
      history := [];
      var totalChars := 0;
      var i := 0;
      while i < |rows|
        invariant 0 <= i <= |rows|
        invariant history + Accumulate(rows[i..], totalChars) == Accumulate(rows, 0)
      {
        var content := Strip(rows[i].content);
        AccumulateAt(rows, i, totalChars, content);
        if content == [] {
          i := i + 1;
          continue;
        }
        totalChars := totalChars + |content|;
        if totalChars > MAX_HISTORY_CHARS {
          assert history + [] == history;
          break;
        }
        ghost var turn, rest := ChatTurn(rows[i].role, content), Accumulate(rows[i + 1..], totalChars);
        assert (history + [turn]) + rest == history + ([turn] + rest);
        history := history + [ChatTurn(rows[i].role, content)];
        i := i + 1;
      }
    }

    /** `trim_history(u, keep_last)`: delete all but the `keepLast` newest
        rows of `u`. */
    method TrimHistory(u: int, keepLast: nat := DEFAULT_KEEP_LAST)
      requires Valid()
      modifies this`messages
      ensures Valid()
      ensures messages == KeepNewest(old(messages), u, keepLast)
    {
      KeepNewestFacts(messages, u, keepLast);
      messages := KeepNewest(messages, u, keepLast);
    }

    /** `delete_user_history(u)`: delete every row of `u`. */
    method DeleteUserHistory(u: int)
      requires Valid()
      modifies this`messages
      ensures Valid()
      ensures messages == OthersOf(old(messages), u)
    {
      OthersOfFacts(messages, u);
      messages := OthersOf(messages, u);
    }
  }
}
