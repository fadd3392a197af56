/**
 * The browser tool's command rewrite (src/app/api/race/run/route.ts):
 * `command.replace(/\bsnapshot\b(?!\s+-i)/g, "snapshot -i")`. Every
 * whole-word `snapshot` that is not already followed by whitespace and `-i`
 * gets ` -i` appended, so the agent always asks for the interactive snapshot.
 */
module Sanitiser {
  import opened JsStrings

  const Snapshot := "snapshot"
  const Flag := " -i"

  /** The negative lookahead's subject: one or more whitespace characters, then `-i`. */
  predicate Flagged(t: string) {
    |t| > 0 && IsSpace(t[0]) && StartsWith(TrimStart(t), "-i")
  }

  /**
   * Whether the pattern matches at the start of `s`, where `prevWord` says
   * whether the character before `s` is a word character (`\b` needs it not
   * to be, since `s` is one).
   */
  predicate Match(s: string, prevWord: bool) {
    && !prevWord
    && StartsWith(s, Snapshot)
    && (|s| == |Snapshot| || !IsWordChar(s[|Snapshot|]))
    && !Flagged(s[|Snapshot|..])
  }

  /** The global replace as the regular expression engine runs it: left to right, resuming after each match. */
  function Scan(s: string, prevWord: bool): string
    decreases |s|
  {
    if s == [] then []
    else if Match(s, prevWord) then Snapshot + Flag + Scan(s[|Snapshot|..], true)
    else [s[0]] + Scan(s[1..], IsWordChar(s[0]))
  }

  /** The sanitised command. */
  function Sanitise(command: string): (r: string)
    ensures r == Insert(command, FlagMarks(command, false))
    ensures |r| == |command| + |Flag| * Count(FlagMarks(command, false))
  {
    ScanIsInsert(command, false);
    InsertLength(command, FlagMarks(command, false));
    Scan(command, false)
  }

  /** Whether the character before position `k` of `s` is a word character. */
  function PrevWord(s: string, prevWord: bool, k: nat): bool
    requires k <= |s|
  {
    if k == 0 then prevWord else IsWordChar(s[k - 1])
  }

  /**
   * The reference description of the result: position `i` is marked when a
   * whole-word, unflagged `snapshot` ends there. Matches cannot overlap, so
   * where the scan resumes does not matter.
   */
  function FlagMarks(s: string, prevWord: bool): (m: seq<bool>)
    ensures |m| == |s|
    ensures forall i :: 0 <= i < |s| ==> (m[i] <==> i + 1 >= |Snapshot| && Match(s[i + 1 - |Snapshot|..], PrevWord(s, prevWord, i + 1 - |Snapshot|)))
  {
    seq(|s|, i requires 0 <= i < |s| => i + 1 >= |Snapshot| && Match(s[i + 1 - |Snapshot|..], PrevWord(s, prevWord, i + 1 - |Snapshot|)))
  }

  /** `s` with ` -i` inserted after every marked character and nothing else changed. */
  function Insert(s: string, marks: seq<bool>): string
    requires |marks| == |s|
  {
    if s == [] then [] else [s[0]] + (if marks[0] then Flag else []) + Insert(s[1..], marks[1..])
  }

  function Count(marks: seq<bool>): nat {
    if marks == [] then 0 else (if marks[0] then 1 else 0) + Count(marks[1..])
  }

  /** Each mark adds the three characters of ` -i`; nothing is removed. */
  lemma {:induction false} InsertLength(s: string, marks: seq<bool>)
    requires |marks| == |s|
    ensures |Insert(s, marks)| == |s| + |Flag| * Count(marks)
  {
    if s != [] {
      InsertLength(s[1..], marks[1..]);
    }
  }

  lemma {:induction false} InsertAppend(a: string, b: string, ma: seq<bool>, mb: seq<bool>)
    requires |ma| == |a| && |mb| == |b|
    ensures Insert(a + b, ma + mb) == Insert(a, ma) + Insert(b, mb)
  {
    if a == [] {
      assert a + b == b && ma + mb == mb;
    } else {
      assert (a + b)[1..] == a[1..] + b;
      assert (ma + mb)[1..] == ma[1..] + mb;
      InsertAppend(a[1..], b, ma[1..], mb);
    }
  }

  /** The scan inserts ` -i` exactly where the reference marks say. */
  lemma {:induction false} ScanIsInsert(s: string, prevWord: bool)
    ensures Scan(s, prevWord) == Insert(s, FlagMarks(s, prevWord))
    decreases |s|
  {
    if s == [] {
    } else if Match(s, prevWord) {
      ScanIsInsert(s[|Snapshot|..], true);
      MatchedInsert(s, prevWord);
    } else {
      MarksAfterMiss(s, prevWord);
      ScanIsInsert(s[1..], IsWordChar(s[0]));
    }
  }

  /** At a match, the insertion for the whole is ` -i` after `snapshot`, then the insertion for the rest. */
  lemma MatchedInsert(s: string, prevWord: bool)
    requires Match(s, prevWord)
    ensures Insert(s, FlagMarks(s, prevWord)) == Snapshot + Flag + Insert(s[|Snapshot|..], FlagMarks(s[|Snapshot|..], true))
  {
    var n := |Snapshot|;
    MarksAfterMatch(s, prevWord);
    hide Match, FlagMarks;
    var m := FlagMarks(s, prevWord);
    assert s == s[..n] + s[n..];
    assert m == m[..n] + m[n..];
    InsertAppend(s[..n], s[n..], m[..n], m[n..]);
    SnapshotInsert(s[..n], m[..n]);
  }

  lemma SnapshotInsert(s: string, m: seq<bool>)
    requires s == Snapshot && m == [false, false, false, false, false, false, false, true]
    ensures Insert(s, m) == Snapshot + Flag
  {
    assert s == s[..7] + s[7..] && m == m[..7] + m[7..];
    InsertAppend(s[..7], s[7..], m[..7], m[7..]);
    Unmarked(s[..7], m[..7]);
  }

  /** Without marks nothing is inserted. */
  lemma {:induction false} Unmarked(s: string, m: seq<bool>)
    requires |m| == |s| && forall i :: 0 <= i < |m| ==> !m[i]
    ensures Insert(s, m) == s
  {
    if s != [] {
      Unmarked(s[1..], m[1..]);
    }
  }

  /** After a match the next marks are those of the rest, which starts after a word character. */
  lemma MarksAfterMatch(s: string, prevWord: bool)
    requires Match(s, prevWord)
    ensures FlagMarks(s, prevWord)[..|Snapshot|] == [false, false, false, false, false, false, false, true]
    ensures FlagMarks(s, prevWord)[|Snapshot|..] == FlagMarks(s[|Snapshot|..], true)
  {
    var n := |Snapshot|;
    assert |s| >= n && s[..n] == Snapshot;
    assert forall j :: 0 <= j < n ==> IsWordChar(s[j]);
    MarksInSnapshot(s, prevWord);
    MarksPastSnapshot(s, prevWord);
  }

  /** Inside a matched `snapshot` only its last character is marked. */
  lemma MarksInSnapshot(s: string, prevWord: bool)
    requires Match(s, prevWord)
    ensures FlagMarks(s, prevWord)[..|Snapshot|] == [false, false, false, false, false, false, false, true]
  {
    var n := |Snapshot|;
    assert |s| >= n && s[..n] == Snapshot;
    assert s[0..] == s;
    hide Match, FlagMarks;
    var m := FlagMarks(s, prevWord);
    assert m[..n] == [false, false, false, false, false, false, false, true];
  }

  /** Past a matched `snapshot` the marks are those of the rest, which starts after a word character. */
  lemma MarksPastSnapshot(s: string, prevWord: bool)
    requires |s| >= |Snapshot| && s[..|Snapshot|] == Snapshot
    ensures FlagMarks(s, prevWord)[|Snapshot|..] == FlagMarks(s[|Snapshot|..], true)
  {
    var n := |Snapshot|;
    hide Match, FlagMarks;
    var m := FlagMarks(s, prevWord);
    var m' := FlagMarks(s[n..], true);
    forall i | n <= i < |s|
      ensures m[i] == m'[i - n]
    {
      MarkShifted(s, prevWord, i);
    }
  }

  /** One mark past a matched `snapshot`. */
  lemma MarkShifted(s: string, prevWord: bool, i: nat)
    requires |s| >= |Snapshot| && s[..|Snapshot|] == Snapshot
    requires |Snapshot| <= i < |s|
    ensures FlagMarks(s, prevWord)[i] == FlagMarks(s[|Snapshot|..], true)[i - |Snapshot|]
  {
    var n := |Snapshot|;
    var k := i + 1 - n;
    if k < n {
      assert s[k - 1] == Snapshot[k - 1];
      hide FlagMarks;
      AfterWord(s[k..]);
    } else if k == n {
      assert s[n - 1] == 't';
      hide FlagMarks;
      AfterWord(s[k..]);
      assert s[n..][0..] == s[k..];
    } else {
      hide Match, FlagMarks;
      assert s[n..][k - n..] == s[k..];
      assert s[n..][k - n - 1] == s[k - 1];
    }
  }

  /** The pattern never matches right after a word character. */
  lemma AfterWord(t: string)
    ensures !Match(t, true)
  {
  }

  /** Without a match the first mark is clear and the rest are those of the tail. */
  lemma MarksAfterMiss(s: string, prevWord: bool)
    requires s != [] && !Match(s, prevWord)
    ensures FlagMarks(s, prevWord) == [false] + FlagMarks(s[1..], IsWordChar(s[0]))
  {
    hide Match, FlagMarks;
    var m := FlagMarks(s, prevWord);
    var m' := FlagMarks(s[1..], IsWordChar(s[0]));
    assert s[0..] == s;
    forall i | 1 <= i < |s|
      ensures m[i] == m'[i - 1]
    {
      var k := i + 1 - |Snapshot|;
      if k >= 1 {
        assert s[1..][k - 1..] == s[k..];
      }
    }
  }

  /** Sanitising twice changes nothing more: the rewrite never creates a new match. */
  lemma SanitiseIdempotent(command: string)
    ensures Sanitise(Sanitise(command)) == Sanitise(command)
  {
    ScanIdempotent(command, false);
  }

  lemma {:induction false} ScanIdempotent(s: string, prevWord: bool)
    ensures Scan(Scan(s, prevWord), prevWord) == Scan(s, prevWord)
    decreases |s|
  {
    if s == [] {
    } else if Match(s, prevWord) {
      var r := Scan(s[|Snapshot|..], true);
      ScanIdempotent(s[|Snapshot|..], true);
      ScanRewritten(r, prevWord);
    } else {
      NoNewMatch(s, prevWord);
      ScanIdempotent(s[1..], IsWordChar(s[0]));
    }
  }

  /** Where no match starts, the scan copies one character and moves on. */
  lemma ScanCopy(t: string, prevWord: bool)
    requires t != [] && !Match(t, prevWord)
    ensures Scan(t, prevWord) == [t[0]] + Scan(t[1..], IsWordChar(t[0]))
  {
  }

  /** A character other than `s` cannot start a match and is copied. */
  lemma ScanNonS(c: char, r: string, prevWord: bool)
    requires c != 's'
    ensures Scan([c] + r, prevWord) == [c] + Scan(r, IsWordChar(c))
  {
    assert ([c] + r)[0] == c && ([c] + r)[1..] == r;
  }

  /** A rewritten `snapshot -i` is flagged, so a second scan copies it. */
  lemma ScanRewritten(r: string, prevWord: bool)
    ensures Scan(Snapshot + Flag + r, prevWord) == Snapshot + Flag + Scan(r, true)
  {
    hide Scan, Match;
    var t := Snapshot + Flag + r;
    RewrittenNoMatch(r, prevWord);
    ScanCopy(t, prevWord);
    assert t[1..] == "napshot" + (Flag + r);
    WordPrefixKept(t[1..], "napshot");
    assert t[1..][7..] == Flag + r;
    FlagCopied(r);
  }

  lemma RewrittenNoMatch(r: string, prevWord: bool)
    ensures !Match(Snapshot + Flag + r, prevWord)
  {
    assert !IsSpace('-') && IsSpace(' ');
    hide TrimStart, IsSpace;
    var t := Snapshot + Flag + r;
    assert t[|Snapshot|..] == Flag + r;
    assert (Flag + r)[1..] == "-i" + r;
    TrimSpaceHead(Flag + r);
    TrimNonSpace("-i" + r);
  }

  lemma FlagCopied(r: string)
    ensures Scan(Flag + r, true) == Flag + Scan(r, true)
  {
    hide Scan;
    assert Flag + r == [' '] + ("-i" + r);
    ScanNonS(' ', "-i" + r, true);
    assert "-i" + r == ['-'] + ("i" + r);
    ScanNonS('-', "i" + r, false);
    assert "i" + r == ['i'] + r;
    ScanNonS('i', r, false);
  }

  /** After a word character, a run of word characters is copied, and a scan that does not copy `w` does not start with it. */
  lemma {:induction false} WordPrefixKept(t: string, w: string)
    requires forall i :: 0 <= i < |w| ==> IsWordChar(w[i])
    ensures StartsWith(t, w) ==> Scan(t, true) == w + Scan(t[|w|..], true)
    ensures !StartsWith(t, w) ==> !StartsWith(Scan(t, true), w)
  {
    hide Scan, Match;
    if w == [] {
      assert t[0..] == t;
    } else if t == [] {
      EmptyScan(true);
    } else {
      AfterWord(t);
      ScanCopy(t, true);
      if t[0] == w[0] {
        WordPrefixKept(t[1..], w[1..]);
        assert StartsWith(t, w) <==> StartsWith(t[1..], w[1..]) by {
          assert t[..|w|] == [t[0]] + t[1..][..|w| - 1] <== |w| <= |t|;
          assert w == [w[0]] + w[1..];
        }
        if StartsWith(t, w) {
          assert t[1..][|w| - 1..] == t[|w|..];
          assert w == [w[0]] + w[1..];
        }
      }
    }
  }

  /** Where the scan does not match, its output does not match either. */
  lemma NoNewMatch(s: string, prevWord: bool)
    requires s != [] && !Match(s, prevWord)
    ensures !Match(Scan(s, prevWord), prevWord)
  {
    ScanCopy(s, prevWord);
    if prevWord {
    } else if s[0] != 's' {
      assert Scan(s, prevWord)[0] == s[0];
    } else if StartsWith(s, Snapshot) {
      SnapshotNotMatched(s);
    } else {
      SkippedS(s);
      NotSnapshot(Scan(s, false));
    }
  }

  /** An `s` that does not begin `snapshot` is copied, and the output does not begin `snapshot` either. */
  lemma SkippedS(s: string)
    requires s != [] && s[0] == 's' && !StartsWith(s, Snapshot)
    ensures !StartsWith(Scan(s, false), Snapshot)
  {
    SnapshotHead(s);
    ScanCopy(s, false);
    hide Scan, Match;
    var o := Scan(s, false);
    assert o[1..] == Scan(s[1..], true);
    WordPrefixKept(s[1..], "napshot");
    SnapshotHead(o);
  }

  /** `snapshot` is an `s` followed by `napshot`. */
  lemma SnapshotHead(o: string)
    ensures StartsWith(o, Snapshot) <==> |o| > 0 && o[0] == 's' && StartsWith(o[1..], "napshot")
  {
    if |o| >= |Snapshot| {
      assert o[..8] == [o[0]] + o[1..][..7];
    }
  }

  lemma NotSnapshot(o: string)
    requires !StartsWith(o, Snapshot)
    ensures !Match(o, false)
  {
  }

  /** A `snapshot` the scan skips is followed by a word character or by whitespace and `-i`, and stays so. */
  lemma SnapshotNotMatched(s: string)
    requires StartsWith(s, Snapshot) && !Match(s, false)
    ensures !Match(Scan(s, false), false)
  {
    var t := s[|Snapshot|..];
    assert |t| > 0;
    SnapshotCopied(s);
    hide Scan, Match;
    var o := Scan(s, false);
    AfterWord(t);
    ScanCopy(t, true);
    assert o[|Snapshot|..] == Scan(t, true);
    if Flagged(t) {
      FlaggedKept(t, true);
    }
    NotMatchedTail(s, o);
  }

  lemma SnapshotCopied(s: string)
    requires StartsWith(s, Snapshot) && !Match(s, false)
    ensures Scan(s, false) == Snapshot + Scan(s[|Snapshot|..], true)
  {
    hide Scan, Match;
    ScanCopy(s, false);
    assert s[1..] == "napshot" + s[|Snapshot|..];
    WordPrefixKept(s[1..], "napshot");
    assert s[1..][7..] == s[|Snapshot|..];
  }

  lemma NotMatchedTail(s: string, o: string)
    requires StartsWith(s, Snapshot) && !Match(s, false) && |s| > |Snapshot|
    requires StartsWith(o, Snapshot) && |o| > |Snapshot| && o[|Snapshot|] == s[|Snapshot|]
    requires Flagged(s[|Snapshot|..]) ==> Flagged(o[|Snapshot|..])
    ensures !Match(o, false)
  {
  }

  lemma EmptyScan(prevWord: bool)
    ensures Scan([], prevWord) == []
  {
  }

  /** The scan keeps the whitespace-then-`-i` that suppresses a match. */
  lemma FlaggedKept(t: string, prevWord: bool)
    requires Flagged(t)
    ensures Flagged(Scan(t, prevWord))
  {
    assert t == [t[0]] + t[1..];
    ScanNonS(t[0], t[1..], prevWord);
    var o := Scan(t, prevWord);
    DashKept(t[1..], false);
    assert o[1..] == Scan(t[1..], false);
  }

  lemma {:induction false} DashKept(u: string, prevWord: bool)
    requires StartsWith(TrimStart(u), "-i")
    ensures StartsWith(TrimStart(Scan(u, prevWord)), "-i")
    decreases |u|
  {
    assert !IsSpace('-');
    assert |TrimStart(u)| >= 2;
    hide Scan, TrimStart, IsSpace;
    if IsSpace(u[0]) {
      TrimSpaceHead(u);
      DashKept(u[1..], false);
      ScanSpaceHead(u, prevWord);
    } else {
      TrimNonSpace(u);
      DashCopied(u, prevWord);
      TrimNonSpace("-i" + Scan(u[2..], true));
    }
  }

  /** Leading whitespace is copied, so trimming the scan skips it too. */
  lemma ScanSpaceHead(u: string, prevWord: bool)
    requires u != [] && IsSpace(u[0])
    ensures TrimStart(Scan(u, prevWord)) == TrimStart(Scan(u[1..], false))
  {
    assert !IsSpace('s');
    hide TrimStart, IsSpace;
    assert u == [u[0]] + u[1..];
    ScanNonS(u[0], u[1..], prevWord);
    TrimSpaceHead(Scan(u, prevWord));
  }

  /** A leading `-i` is copied. */
  lemma DashCopied(u: string, prevWord: bool)
    requires StartsWith(u, "-i")
    ensures Scan(u, prevWord) == "-i" + Scan(u[2..], true)
  {
    hide Scan;
    assert u == ['-'] + (['i'] + u[2..]);
    ScanNonS('-', ['i'] + u[2..], prevWord);
    ScanNonS('i', u[2..], false);
  }

  lemma TrimSpaceHead(x: string)
    requires x != [] && IsSpace(x[0])
    ensures TrimStart(x) == TrimStart(x[1..])
  {
  }

  lemma TrimNonSpace(x: string)
    requires x != [] && !IsSpace(x[0])
    ensures TrimStart(x) == x
  {
  }
}
