/** The conversation-history rules of LlamaProcessor: the lazy system
    message, the trim that keeps the system message plus the newest
    `max` messages, and the slice assignment that process_text uses
    instead. */
module History {
  import opened Messages

  /** Python's `s[start:]`: a negative start counts from the end, and an
      out-of-range start is clamped, which gives the result the length
      below. */
  function SliceFrom<T>(s: seq<T>, start: int): (r: seq<T>)
    ensures start >= 0 ==> |r| == if start <= |s| then |s| - start else 0
    ensures start < 0 ==> |r| == if -start <= |s| then -start else |s|
  {
    if start >= 0 then (if start <= |s| then s[start..] else [])
    else if -start <= |s| then s[|s| + start..]
    else s
  }

  /** `s[start:]` is always a suffix of `s`. */
  lemma SliceFromIsSuffix<T>(s: seq<T>, start: int)
    ensures var r := SliceFrom(s, start);
      |r| <= |s| && r == s[|s| - |r|..]
  {
    if start < 0 && -start > |s| {
      assert s[0..] == s;
    }
  }

  /** The newest `n` elements of `s`, or all of `s` when it is shorter. */
  function Last<T>(s: seq<T>, n: nat): seq<T> {
    if |s| <= n then s else s[|s| - n..]
  }

  /** The trim rule: keep `h[0]` and the newest `max` of the others (FIFO). */
  function TrimToLimit(h: seq<Message>, max: nat): seq<Message>
    requires h != []
  {
    [h[0]] + Last(h[1..], max)
  }

  /** `h` with the system message inserted when it is empty and `m` is not a system message. */
  function WithSystem(h: seq<Message>, m: Message, sys: Message): seq<Message> {
    if h == [] && m.role != System then [sys] else h
  }

  /** The history after `_add_to_conversation(m)`. */
  function Appended(h: seq<Message>, m: Message, sys: Message, max: nat): (r: seq<Message>)
    requires max >= 1
    ensures r != [] && |r| <= max + 1 && r[|r| - 1] == m
  {
    TrimToLimitBounds(WithSystem(h, m, sys) + [m], max);
    TrimToLimit(WithSystem(h, m, sys) + [m], max)
  }

  /** The history after adding each of `ms` in turn. */
  function AppendAll(h: seq<Message>, ms: seq<Message>, sys: Message, max: nat): seq<Message>
    requires max >= 1
    decreases |ms|
  {
    if ms == [] then h else AppendAll(Appended(h, ms[0], sys, max), ms[1..], sys, max)
  }

  /** The trim keeps index 0, keeps at most `max` others (the newest
      entry among them when `max >= 1`), and changes nothing in a history
      already within the limit. */
  lemma TrimToLimitBounds(h: seq<Message>, max: nat)
    requires h != []
    ensures var r := TrimToLimit(h, max);
      && r != [] && r[0] == h[0] && r[1..] == Last(h[1..], max)
      && |r| == (if |h| <= max + 1 then |h| else max + 1)
      && (|h| <= max + 1 ==> r == h)
      && (max >= 1 ==> r[|r| - 1] == h[|h| - 1])
  {
    var r := TrimToLimit(h, max);
    assert r[1..] == Last(h[1..], max);
    if |h| <= max + 1 {
      assert r == [h[0]] + h[1..];
    } else if max >= 1 {
      assert r[|r| - 1] == h[1..][|h| - 2];
    }
  }

  /** One `_add_to_conversation`: the lazy system message, the new message
      last, at most `max + 1` entries whatever the history was, `h[0]`
      kept, and the kept tail is the newest messages in their order. */
  lemma AppendedShape(h: seq<Message>, m: Message, sys: Message, max: nat)
    requires max >= 1
    ensures var r := Appended(h, m, sys, max);
      && r != [] && r[|r| - 1] == m
      && |r| <= max + 1
      && (h == [] && m.role != System ==> r == [sys, m])
      && (h == [] && m.role == System ==> r == [m])
      && (h != [] ==> r[0] == h[0] && r[1..] == Last(h[1..] + [m], max))
  {
    var c := WithSystem(h, m, sys) + [m];
    TrimToLimitBounds(c, max);
    if h != [] {
      assert c[1..] == h[1..] + [m];
    }
  }

  /** Adding a message keeps a system message at index 0. */
  lemma AppendedKeepsSystemFirst(h: seq<Message>, m: Message, sys: Message, max: nat)
    requires max >= 1 && sys.role == System && SystemFirst(h)
    ensures SystemFirst(Appended(h, m, sys, max))
  {
    TrimToLimitBounds(WithSystem(h, m, sys) + [m], max);
  }

  /** Taking the newest `n` and then appending loses nothing the newest `n` of the whole would keep. */
  lemma {:induction false} LastOfLast<T>(s: seq<T>, t: seq<T>, n: nat)
    ensures Last(Last(s, n) + t, n) == Last(s + t, n)
  {
    if |s| > n {
      var a, b := s[..|s| - n], s[|s| - n..];
      assert s == a + b;
      assert s + t == a + (b + t);
      LastOfLongSuffix(a, b + t, n);
    }
  }

  lemma LastOfLongSuffix<T>(a: seq<T>, b: seq<T>, n: nat)
    requires |b| >= n
    ensures Last(a + b, n) == Last(b, n)
  {
    assert (a + b)[|a| + |b| - n..] == b[|b| - n..];
  }

  /** FIFO over any number of additions to a started history within the
      limit: index 0 never changes, and the rest is exactly the newest `max` of all non-system
      messages, old and new, in their order. */
  lemma {:induction false} AppendAllKeepsNewest(h: seq<Message>, ms: seq<Message>, sys: Message, max: nat)
    requires max >= 1 && h != [] && |h| <= max + 1
    decreases |ms|
    ensures var r := AppendAll(h, ms, sys, max);
      r != [] && r[0] == h[0] && r[1..] == Last(h[1..] + ms, max)
  {
    if ms == [] {
      assert h[1..] + ms == h[1..];
    } else {
      var s := h[1..] + [ms[0]];
      assert ms == [ms[0]] + ms[1..];
      assert s + ms[1..] == h[1..] + ms;
      var h' := Appended(h, ms[0], sys, max);
      AppendedTail(h, ms[0], sys, max);
      AppendAllKeepsNewest(h', ms[1..], sys, max);
      LastOfLast(s, ms[1..], max);
    }
  }

  /** One addition to a started history, seen from its non-system part. */
  lemma AppendedTail(h: seq<Message>, m: Message, sys: Message, max: nat)
    requires max >= 1 && h != []
    ensures var r := Appended(h, m, sys, max);
      r != [] && |r| <= max + 1 && r[0] == h[0] && r[1..] == Last(h[1..] + [m], max)
  {
    assert (h + [m])[1..] == h[1..] + [m];
    TrimToLimitBounds(h + [m], max);
  }

  /** The trim as _add_to_conversation writes it, `[c[0]] + c[-max:]` once
      the list has more than `max + 1` entries, is the trim rule. */
  lemma AppendedBySlicing(h: seq<Message>, m: Message, sys: Message, max: nat)
    requires max >= 1
    ensures var c := WithSystem(h, m, sys) + [m];
      Appended(h, m, sys, max) == if |c| > max + 1 then [c[0]] + c[|c| - max..] else c
  {
    var c := WithSystem(h, m, sys) + [m];
    TrimToLimitBounds(c, max);
    if |c| > max + 1 {
      assert c[1..][|c| - 1 - max..] == c[|c| - max..];
    }
  }

  /** The slice assignment `h[1:] = h[-k + 1:]` of process_text, as
      written: index 0 stays, and after it comes the suffix of the WHOLE
      list (index 0 included) of length k - 1, clamped to |h|. With k = 1
      the slice start is 0, so all of `h`; with k = 0 it is 1, so
      everything after index 0. */
  function SliceAssignTrim(h: seq<Message>, k: nat): (r: seq<Message>)
    requires h != []
    ensures r != [] && r[0] == h[0] && r[|r| - 1] == h[|h| - 1]
    ensures |r| == 1 + (if k == 0 then |h| - 1 else if k == 1 || k - 1 > |h| then |h| else k - 1)
  {
    var t := SliceFrom(h, 1 - k as int);
    SliceFromIsSuffix(h, 1 - k as int);
    assert t != [] ==> t[|t| - 1] == h[|h| - 1];
    [h[0]] + t
  }

  /** The history process_text sends upstream in loop mode: the system
      message when empty, the user message, then the slice assignment. */
  function TextTurnHistory(h: seq<Message>, user: Message, sys: Message, k: nat): (r: seq<Message>)
    ensures |r| >= 2 && r[0] == (if h == [] then sys else h[0]) && r[|r| - 1] == user
  {
    SliceAssignTrim((if h == [] then [sys] else h) + [user], k)
  }

  /** As written, the slice keeps index 0 in its own right-hand side while
      the history has at most `k - 1` entries (and always when `k == 1`),
      so `h[0]` ends up both at index 0 and at index 1. */
  lemma SliceAssignTrimDuplicatesFirst(h: seq<Message>, k: nat)
    requires h != [] && (k == 1 || |h| <= k - 1)
    ensures SliceAssignTrim(h, k) == [h[0]] + h
    ensures |SliceAssignTrim(h, k)| == |h| + 1
  {
    assert h[0..] == h;
  }

  /** The first process_text call on a fresh processor (max 10) sends the
      system message twice. */
  lemma FirstTextTurnDuplicatesSystem(sys: Message, user: Message)
    ensures TextTurnHistory([], user, sys, 10) == [sys, sys, user]
  {
    assert [sys] + [user] == [sys, user];
    SliceAssignTrimDuplicatesFirst([sys, user], 10);
  }

  /** With `k == 1` every process_text call grows the history by two before
      the reply is added: it never shrinks back. */
  lemma TextTurnGrowsWhenLimitIsOne(h: seq<Message>, user: Message, sys: Message)
    requires h != []
    ensures |TextTurnHistory(h, user, sys, 1)| == |h| + 2
  {
    SliceAssignTrimDuplicatesFirst(h + [user], 1);
  }

  /** Once the history is longer than `k - 1`, the slice assignment is the
      intended trim, keeping `h[0]` and the newest `k - 1` entries. */
  lemma SliceAssignTrimWhenLong(h: seq<Message>, k: nat)
    requires k >= 2 && |h| >= k
    ensures SliceAssignTrim(h, k) == TrimToLimit(h, k - 1)
  {
    assert h[|h| - (k - 1)..] == h[1..][|h| - 1 - (k - 1)..];
  }

  /** For `k >= 2` the text turn leaves at most `k` entries, so with the
      assistant reply the history has at most `k + 1`. */
  lemma TextTurnBounded(h: seq<Message>, user: Message, sys: Message, k: nat)
    requires k >= 2
    ensures |TextTurnHistory(h, user, sys, k)| <= k
  {
    var l := (if h == [] then [sys] else h) + [user];
    if |l| <= k - 1 {
      SliceAssignTrimDuplicatesFirst(l, k);
    } else {
      SliceAssignTrimWhenLong(l, k);
      TrimToLimitBounds(l, k - 1);
    }
  }

  /** What line 152 evidently intends: keep index 0 and the newest `k - 1`
      other entries, which is the trim rule of _add_to_conversation with
      limit `k - 1`. */
  function TextTurnIntended(h: seq<Message>, user: Message, sys: Message, k: nat): (r: seq<Message>)
    requires k >= 2
    ensures var l := (if h == [] then [sys] else h) + [user];
      && r != [] && r[0] == l[0]
      && |r| == (if |l| <= k then |l| else k)
  {
    TrimToLimitBounds((if h == [] then [sys] else h) + [user], k - 1);
    TrimToLimit((if h == [] then [sys] else h) + [user], k - 1)
  }

  /** The intended text turn never duplicates index 0: it keeps the first
      entry, then exactly the newest `k - 1` of the others in order, the
      user message last, and at most `k` entries. */
  lemma TextTurnIntendedShape(h: seq<Message>, user: Message, sys: Message, k: nat)
    requires k >= 2
    ensures var l := (if h == [] then [sys] else h) + [user];
      var r := TextTurnIntended(h, user, sys, k);
      && r != [] && r[0] == l[0] && r[|r| - 1] == user
      && r[1..] == Last(l[1..], k - 1)
      && |r| <= k
  {
    var l := (if h == [] then [sys] else h) + [user];
    TrimToLimitBounds(l, k - 1);
    var r := TextTurnIntended(h, user, sys, k);
    assert r[|r| - 1] == user by {
      assert l[1..][|l| - 2] == user;
    }
  }

  /** Once the history holds at least `k - 1` entries the as-written slice
      does what was intended. */
  lemma TextTurnAgreesWhenLong(h: seq<Message>, user: Message, sys: Message, k: nat)
    requires k >= 2 && |h| >= k - 1
    ensures TextTurnHistory(h, user, sys, k) == TextTurnIntended(h, user, sys, k)
  {
    SliceAssignTrimWhenLong((if h == [] then [sys] else h) + [user], k);
  }
}
