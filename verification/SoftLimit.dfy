/**
 The publish soft limit (withinSoftLimit in ed2k/server_runtime.go): which files of an
 offer a session may source, filtered in place. Storage is the set of files the session
 sources already.
 */
module SoftLimit {
  import opened Bytes

  datatype Key = Key(hash: seq<Byte>, size: nat)

  /** An offered file; `data` is what else its record says. */
  datatype File = File(key: Key, data: nat)

  ghost function Keys(files: seq<File>): set<Key> { set i | 0 <= i < |files| :: files[i].key }

  /**
   What passes, in order: a file the session sources, by now or in this very offer, always;
   a new one while fewer than `limit` are sourced.
   */
  ghost function Passed(files: seq<File>, offered: set<Key>, limit: int): seq<File> {
    if files == [] then []
    else
      var n := |files| - 1;
      var kept := Passed(files[..n], offered, limit);
      var now := offered + Keys(kept);
      if limit <= 0 || files[n].key in now || |now| < limit then kept + [files[n]] else kept
  }

  lemma KeysSnoc(files: seq<File>, f: File)
    ensures Keys(files + [f]) == Keys(files) + {f.key}
  {
    var more := files + [f];
    assert forall i :: 0 <= i < |files| ==> more[i] == files[i];
    assert more[|files|] == f;
  }

  /** The limit is never crossed, and something is held back only once it is reached. */
  lemma {:induction false} LimitKept(files: seq<File>, offered: set<Key>, limit: int)
    requires limit > 0
    ensures var kept := Passed(files, offered, limit);
            && |kept| <= |files|
            && (|offered| <= limit ==> |offered + Keys(kept)| <= limit)
            && (|kept| < |files| ==> |offered + Keys(kept)| >= limit)
    decreases files
  {
    hide Keys;
    if files == [] {
      assert offered + Keys([]) == offered by { NoKeys(); }
    } else {
      var n := |files| - 1;
      var kept := Passed(files[..n], offered, limit);
      LimitKept(files[..n], offered, limit);
      KeysSnoc(kept, files[n]);
      var now := offered + Keys(kept);
      AddOne(now, files[n].key);
      assert offered + Keys(kept + [files[n]]) == now + {files[n].key};
    }
  }

  lemma AddOne<T>(s: set<T>, x: T)
    ensures |s + {x}| == if x in s then |s| else |s| + 1
  {
    if x in s { assert s + {x} == s; }
  }

  lemma NoKeys()
    ensures Keys([]) == {}
  {
  }

  /** A file the session already sources always passes. */
  lemma {:induction false} KnownPass(files: seq<File>, offered: set<Key>, limit: int, i: nat)
    requires i < |files| && files[i].key in offered
    ensures files[i] in Passed(files, offered, limit)
    decreases files
  {
    var n := |files| - 1;
    if i < n { KnownPass(files[..n], offered, limit, i); }
  }

  /** While everything fits even if all of it is new, the cheap answer is the full one. */
  lemma {:induction false} EarlyAnswerIsFull(files: seq<File>, offered: set<Key>, limit: int)
    requires |offered| + |files| <= limit || limit <= 0
    ensures Passed(files, offered, limit) == files
    ensures |offered + Keys(files)| <= |offered| + |files|
    decreases files
  {
    hide Keys;
    if files == [] {
      assert offered + Keys([]) == offered by { NoKeys(); }
    } else {
      var n := |files| - 1;
      EarlyAnswerIsFull(files[..n], offered, limit);
      assert files[..n] + [files[n]] == files;
      KeysSnoc(files[..n], files[n]);
      AddOne(offered + Keys(files[..n]), files[n].key);
      assert offered + Keys(files) == (offered + Keys(files[..n])) + {files[n].key};
    }
  }

  /** Whether a file may pass: known, or its key came first while fewer than `limit` were known or offered. */
  ghost predicate MayPass(files: seq<File>, offered: set<Key>, limit: int, i: nat)
    requires i < |files|
  {
    limit <= 0 || files[i].key in offered || exists j :: 0 <= j <= i && Early(files, offered, limit, files[i].key, j)
  }

  ghost predicate Early(files: seq<File>, offered: set<Key>, limit: int, key: Key, j: nat)
    requires j < |files|
  {
    files[j].key == key && |offered + Keys(files[..j])| < limit
  }

  ghost function Eligible(files: seq<File>, offered: set<Key>, limit: int, n: nat): seq<File>
    requires n <= |files|
  {
    if n == 0 then []
    else Eligible(files, offered, limit, n - 1) + if MayPass(files, offered, limit, n - 1) then [files[n - 1]] else []
  }

  ghost predicate PassesAt(files: seq<File>, offered: set<Key>, limit: int, key: Key, i: nat)
    requires i < |files|
  {
    files[i].key == key && MayPass(files, offered, limit, i)
  }

  lemma {:induction false} EligibleKeys(files: seq<File>, offered: set<Key>, limit: int, n: nat, key: Key)
    requires n <= |files|
    ensures key in Keys(Eligible(files, offered, limit, n)) <==> exists i :: 0 <= i < n && PassesAt(files, offered, limit, key, i)
  {
    hide Keys, MayPass;
    if n == 0 {
      NoKeys();
      return;
    }
    EligibleKeys(files, offered, limit, n - 1, key);
    var before := Eligible(files, offered, limit, n - 1);
    KeysSnoc(before, files[n - 1]);
    EligibleNext(files, offered, limit, n);
    assert before + [] == before;
    hide Eligible;
    if PassesAt(files, offered, limit, key, n - 1) {
      assert key in Keys(before + [files[n - 1]]);
    }
  }

  /** What passes is, in order, exactly what may. */
  lemma {:induction false} PassedExactly(files: seq<File>, offered: set<Key>, limit: int, n: nat)
    requires n <= |files|
    ensures Passed(files[..n], offered, limit) == Eligible(files, offered, limit, n)
    decreases n
  {
    hide Keys, MayPass;
    if n == 0 { return; }
    var m := n - 1;
    PassedExactly(files, offered, limit, m);
    PassedNext(files, m, offered, limit);
    hide Passed, Eligible;
    if limit > 0 {
      MayPassNow(files, offered, limit, m);
    } else {
      MayPassFree(files, offered, limit, m);
    }
    assert Eligible(files, offered, limit, n) ==
           Eligible(files, offered, limit, m) + if MayPass(files, offered, limit, m) then [files[m]] else [] by { EligibleNext(files, offered, limit, n); }
  }

  lemma EligibleNext(files: seq<File>, offered: set<Key>, limit: int, n: nat)
    requires 0 < n <= |files|
    ensures Eligible(files, offered, limit, n) ==
            Eligible(files, offered, limit, n - 1) + if MayPass(files, offered, limit, n - 1) then [files[n - 1]] else []
  {
    hide MayPass;
  }

  lemma MayPassFree(files: seq<File>, offered: set<Key>, limit: int, i: nat)
    requires i < |files| && limit <= 0
    ensures MayPass(files, offered, limit, i)
  {
  }

  lemma MayPassNow(files: seq<File>, offered: set<Key>, limit: int, m: nat)
    requires m < |files| && limit > 0 && Passed(files[..m], offered, limit) == Eligible(files, offered, limit, m)
    ensures var now := offered + Keys(Passed(files[..m], offered, limit));
            MayPass(files, offered, limit, m) <==> files[m].key in now || |now| < limit
  {
    hide Keys, Passed, Eligible;
    var kept := Passed(files[..m], offered, limit);
    var key := files[m].key;
    EligibleKeys(files, offered, limit, m, key);
    AllOrFull(files[..m], offered, limit);
    if key in offered {
    } else if key in Keys(kept) {
      var i :| 0 <= i < m && PassesAt(files, offered, limit, key, i);
      var j :| 0 <= j <= i && Early(files, offered, limit, key, j);
      assert MayPass(files, offered, limit, m);
    } else if |offered + Keys(kept)| < limit {
      assert Early(files, offered, limit, key, m);
    } else {
      forall j | 0 <= j < m ensures !Early(files, offered, limit, key, j) {
        assert !PassesAt(files, offered, limit, key, j);
      }
      assert !Early(files, offered, limit, key, m);
    }
  }

  /** Below the limit everything has passed; at it, the files that count are at least as many. */
  lemma AllOrFull(files: seq<File>, offered: set<Key>, limit: int)
    requires limit > 0
    ensures var kept := Passed(files, offered, limit);
            && (|offered + Keys(kept)| < limit ==> kept == files)
            && |offered + Keys(kept)| <= |offered + Keys(files)|
  {
    hide Keys;
    var kept := Passed(files, offered, limit);
    LimitKept(files, offered, limit);
    SubPassed(files, offered, limit);
    assert offered + Keys(kept) <= offered + Keys(files);
    Fewer(offered + Keys(kept), offered + Keys(files));
  }

  lemma Fewer<T>(a: set<T>, b: set<T>)
    requires a <= b
    ensures |a| <= |b|
  {
    assert a + (b - a) == b;
  }

  lemma {:induction false} SubPassed(files: seq<File>, offered: set<Key>, limit: int)
    ensures var kept := Passed(files, offered, limit);
            Keys(kept) <= Keys(files) && |kept| <= |files| && (|kept| == |files| ==> kept == files)
    decreases files
  {
    hide Keys;
    if files != [] {
      var n := |files| - 1;
      SubPassed(files[..n], offered, limit);
      KeysSnoc(files[..n], files[n]);
      KeysSnoc(Passed(files[..n], offered, limit), files[n]);
      assert files == files[..n] + [files[n]];
    } else {
      NoKeys();
    }
  }

  /** What a session sources after a run of offers. */
  ghost function Sourced(offered: set<Key>, offers: seq<seq<File>>, limit: int): set<Key> {
    if offers == [] then offered
    else
      var before := Sourced(offered, offers[..|offers| - 1], limit);
      before + Keys(Passed(offers[|offers| - 1], before, limit))
  }

  /** No run of offers makes a session source more files than the limit, or forget one. */
  lemma {:induction false} RunWithinLimit(offered: set<Key>, offers: seq<seq<File>>, limit: int)
    requires limit > 0 && |offered| <= limit
    ensures |Sourced(offered, offers, limit)| <= limit && offered <= Sourced(offered, offers, limit)
  {
    hide Keys, Passed;
    if offers != [] {
      var n := |offers| - 1;
      RunWithinLimit(offered, offers[..n], limit);
      LimitKept(offers[n], Sourced(offered, offers[..n], limit), limit);
    }
  }

  /** The loop's counters stand for the sets: `admitted` are the new files among those kept. */
  ghost predicate Counts(kept: seq<File>, offered: set<Key>, admitted: set<Key>, room: int, limit: int) {
    && offered + Keys(kept) == offered + admitted && admitted !! offered
    && room == limit - |offered| - |admitted|
  }

  lemma NextFile(files: seq<File>, i: nat, offered: set<Key>, limit: int, kept: seq<File>, admitted: set<Key>, room: int)
    requires i < |files| && limit > 0 && kept == Passed(files[..i], offered, limit)
    requires Counts(kept, offered, admitted, room, limit)
    ensures var key := files[i].key;
            var more := Passed(files[..i + 1], offered, limit);
            if key in admitted || key in offered then more == kept + [files[i]] && Counts(more, offered, admitted, room, limit)
            else if room > 0 then more == kept + [files[i]] && Counts(more, offered, admitted + {key}, room - 1, limit)
            else more == kept
  {
    hide Keys;
    var key := files[i].key;
    PassedNext(files, i, offered, limit);
    hide Passed;
    assert |offered + admitted| == |offered| + |admitted|;
    KeysSnoc(kept, files[i]);
    assert offered + Keys(kept + [files[i]]) == (offered + admitted) + {key};
    AddOne(admitted, key);
  }

  lemma PassedNext(files: seq<File>, i: nat, offered: set<Key>, limit: int)
    requires i < |files|
    ensures var kept := Passed(files[..i], offered, limit);
            var now := offered + Keys(kept);
            Passed(files[..i + 1], offered, limit) ==
            if limit <= 0 || files[i].key in now || |now| < limit then kept + [files[i]] else kept
  {
    hide Keys;
    assert files[..i + 1][..i] == files[..i];
  }

  /** withinSoftLimit: what passes is moved to the front of the batch. */
  method WithinSoftLimit(batch: array<File>, offered: set<Key>, limit: int) returns (kept: nat, skipped: nat)
    modifies batch
    ensures kept + skipped == batch.Length
    ensures batch[..kept] == Passed(old(batch[..]), offered, limit)
  {
    ghost var files := batch[..];
    if limit <= 0 || batch.Length == 0 || |offered| + batch.Length <= limit {
      if files != [] { EarlyAnswerIsFull(files, offered, limit); }
      return batch.Length, 0;
    }
    kept, skipped := FilterInPlace(batch, offered, limit);
  }

  method FilterInPlace(batch: array<File>, offered: set<Key>, limit: int) returns (kept: nat, skipped: nat)
    requires limit > 0
    modifies batch
    ensures kept + skipped == batch.Length
    ensures batch[..kept] == Passed(old(batch[..]), offered, limit)
  {
    hide Passed, Counts, Keys;
    ghost var files := batch[..];
    var admitted: set<Key> := {};
    var room := limit - |offered|;
    kept, skipped := 0, 0;
    NothingYet(offered, limit);
    assert files[..0] == batch[..0] == [];
    for i := 0 to batch.Length
      invariant kept + skipped == i && batch[i..] == files[i..]
      invariant batch[..kept] == Passed(files[..i], offered, limit)
      invariant Counts(batch[..kept], offered, admitted, room, limit)
    {
      var file := batch[i];
      assert file == files[i];
      NextFile(files, i, offered, limit, batch[..kept], admitted, room);
      if file.key in admitted || file.key in offered {
      } else if room > 0 {
        room := room - 1;
        admitted := admitted + {file.key};
      } else {
        skipped := skipped + 1;
        continue;
      }
      ghost var before := batch[..kept];
      batch[kept] := file;
      kept := kept + 1;
      assert batch[..kept] == before + [file];
    }
    assert files[..batch.Length] == files;
  }

  lemma NothingYet(offered: set<Key>, limit: int)
    ensures Passed([], offered, limit) == [] && Counts([], offered, {}, limit - |offered|, limit)
  {
    NoKeys();
  }
}
