/**
 Every run of `Arbitration` on the packed word itself: the record history is the history of exactly one
 sequence of 32-bit words, each made from the one before as the firmware makes it.
 */
module PackedRuns {
  import opened ModeWord
  import opened Options
  import opened Arbitration

  predicate MadeFrom(w: bv32, next: bv32, cause: Cause) {
    match cause
    case Boot => false
    case ByEvent(event) => NextControl(w, event) == Some(next)
    case ByRoute(route) => next == PublishRoute(w, route)
  }

  // A packed word for every entry of the history, each made from the one before as the firmware makes it.
  predicate WordsFollow(words: seq<bv32>, log: seq<Entry>) {
    && |words| == |log|
    && (forall i :: 0 <= i < |log| ==> Unpack(words[i]) == log[i].mode)
    && (forall i :: 0 < i < |log| ==> MadeFrom(words[i - 1], words[i], log[i].cause))
  }

  /**
   The packed word refines the record over whole runs: starting from any packed boot word there
   is exactly one packed history under the record history, built by `next_control` and the
   route publication alone. So no commit is lost and none touches another's fields.
   */
  lemma PackedHistory(s: Sys, run: seq<Action>, w: bv32) returns (words: seq<bv32>)
    requires Booted(s) && Unpack(w) == s.mode
    ensures words != [] && words[0] == w && WordsFollow(words, Exec(s, run).log)
    ensures forall other: seq<bv32> :: WordsFollow(other, Exec(s, run).log) ==> other == words
  {
    BootedInv(s);
    ExecKeepsInv(s, run);
    ExecKeepsFirst(s, run);
    var log := Exec(s, run).log;
    words := PackLog(log, w, |log|);
    assert log[..|log|] == log;
    forall other: seq<bv32> | WordsFollow(other, log)
      ensures other == words
    {
      SameWords(other, words, log);
    }
  }

  lemma PackStep(w: bv32, f: Fields, e: Entry) returns (next: bv32)
    requires Unpack(w) == f && Applied(f, e)
    ensures Unpack(next) == e.mode
    ensures MadeFrom(w, next, e.cause)
  {
    hide Unpack;
    hide NextControl;
    hide NextFields;
    hide PublishRoute;
    match e.cause {
      case ByEvent(event) =>
        NextControlRefines(w, event);
        next := NextControl(w, event).value;
      case ByRoute(route) =>
        PublishRouteRefines(w, route);
        next := PublishRoute(w, route);
    }
  }

  lemma {:induction false} PackLog(log: seq<Entry>, w: bv32, n: nat) returns (words: seq<bv32>)
    requires 0 < n <= |log| && Unpack(w) == log[0].mode
    requires forall i :: 0 < i < |log| ==> Applied(log[i - 1].mode, log[i])
    ensures |words| == n && words[0] == w && WordsFollow(words, log[..n])
    decreases n
  {
    hide Unpack;
    hide MadeFrom;
    hide Applied;
    if n == 1 {
      words := [w];
    } else {
      var shorter := PackLog(log, w, n - 1);
      assert log[..n][..n - 1] == log[..n - 1];
      assert log[..n - 1][n - 2] == log[n - 2];
      assert Applied(log[n - 2].mode, log[n - 1]);
      var next := PackStep(shorter[n - 2], log[n - 2].mode, log[n - 1]);
      words := shorter + [next];
      PackExtends(shorter, next, log, n);
    }
  }

  lemma PackExtends(shorter: seq<bv32>, next: bv32, log: seq<Entry>, n: nat)
    requires 1 < n <= |log| && WordsFollow(shorter, log[..n - 1])
    requires Unpack(next) == log[n - 1].mode
    requires MadeFrom(shorter[n - 2], next, log[n - 1].cause)
    ensures WordsFollow(shorter + [next], log[..n])
  {
    hide Unpack;
    hide MadeFrom;
    var words := shorter + [next];
    forall i | 0 <= i < n
      ensures Unpack(words[i]) == log[..n][i].mode
    {
      if i < n - 1 {
        assert log[..n - 1][i] == log[i] && words[i] == shorter[i];
      }
    }
    forall i | 0 < i < n
      ensures MadeFrom(words[i - 1], words[i], log[..n][i].cause)
    {
      assert words[i - 1] == shorter[i - 1];
      if i < n - 1 {
        assert log[..n - 1][i] == log[i] && words[i] == shorter[i];
        assert MadeFrom(shorter[i - 1], shorter[i], log[..n - 1][i].cause);
      }
    }
  }

  lemma SameWords(v: seq<bv32>, w: seq<bv32>, log: seq<Entry>)
    requires WordsFollow(v, log) && WordsFollow(w, log)
    ensures v == w
  {
    hide Unpack;
    hide MadeFrom;
    forall i | 0 <= i < |log|
      ensures v[i] == w[i]
    {
      UnpackInjective(v[i], w[i]);
    }
  }
}
