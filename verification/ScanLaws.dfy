/** What scanned versions mean to the peer: it follows a change of a version it still
    holds, and edits of one acknowledged file become a three-way merge
    (src/scan.rs:283-347, src/reconcile.rs:131-191). */
module ScanLaws {
  import opened Bytes
  import opened Model
  import opened Reconcile
  import opened History
  import opened PlanLaws
  import opened Scan

  /** No held version knows what a replica has yet to make. */
  lemma NewsIsUnknown(w: World, atA: bool, path: Path, was: Version, id: VersionId)
    requires Inv(w) && History.Holds(w, path, was) && id.peer == At(w, atA).id && id.sequence > At(w, atA).counter
    ensures !Knows(was, id) && !(was.peer == id.peer && was.sequence >= id.sequence)
  {
    assert IssueOk(w, (was.peer, was.sequence));
  }

  /** A peer that still holds the version a scan replaced takes the new one, changed file or
      deletion, without a conflict and without a merge, whichever side reconciles. */
  lemma PeerFollows(w: World, atA: bool, path: Path, found: Entry, timestamp: int, v: Version)
    requires Inv(w) && path in At(w, atA).records && At(w, atA).records[path].entry != found
    requires Decided(At(w, atA), v, path, found, timestamp)
    ensures var was := Record(path, At(w, atA).records[path]);
            var now := Record(path, v);
            Decide(was, now) == Decide(now, was) == Decision(now, [], [])
  {
    var was := At(w, atA).records[path];
    assert History.Holds(w, path, was);
    NewsIsUnknown(w, atA, path, was, v.Id());
    assert Knows(v, was.Id());
    KnowsIsSeen(v, was.Id());
    KnowsIsSeen(was, v.Id());
  }

  /** The acknowledged file both replicas hold. */
  predicate Acknowledged(w: World, path: Path, was: Version)
  {
    var base := BaseVersion(was.Id(), was.entry, was.baseAuthenticator);
    && was.entry.File? && path in w.a.records && path in w.b.records && w.a.records[path] == w.b.records[path] == was
    && path in w.a.heads && path in w.b.heads && w.a.heads[path] == w.b.heads[path] == base
  }

  /** Two concurrent edits of one base are its merge candidate, the later one the winner. */
  lemma EditsOfOneBase(a: Record, b: Record)
    requires Concurrent(a.version, b.version) && OneBase(a.version, b.version)
    requires a.version.entry.File? && b.version.entry.File?
    ensures var d := Decide(a, b);
            && d.conflicts == [] && |d.merges| == 1 && Some(d.merges[0].base) == a.version.mergeBase
            && (a.version.timestamp > b.version.timestamp ==> d.merges[0].winner == a && d.merges[0].loser == b)
            && (b.version.timestamp > a.version.timestamp ==> d.merges[0].winner == b && d.merges[0].loser == a)
  {
    DecideReports(a, b);
    DecideParts(a, b);
    DecidePrevails(a, b);
  }

  /** An edit of an acknowledged file is based on it and knows it, and nobody else knows the edit. */
  lemma EditOfAcknowledged(w: World, atA: bool, path: Path, was: Version, found: Entry, timestamp: int, v: Version)
    requires Inv(w) && Acknowledged(w, path, was) && found.File? && found != was.entry
    requires Decided(At(w, atA), v, path, found, timestamp)
    ensures v.mergeBase == Some(BaseVersion(was.Id(), was.entry, was.baseAuthenticator))
    ensures Knows(v, was.Id()) && v.entry == found && v.peer == At(w, atA).id && v.timestamp == timestamp
    ensures forall id: VersionId ::
              Knows(v, id) ==> Knows(was, id) || (was.peer == id.peer && was.sequence >= id.sequence)
    ensures !Knows(was, v.Id()) && !(was.peer == v.peer && was.sequence >= v.sequence)
  {
    assert History.Holds(w, path, was);
    NewsIsUnknown(w, atA, path, was, v.Id());
    assert Knows(v, was.Id()) by {
      assert KnowsReplaced(v, was);
    }
  }

  /** When both sides edit a file they have acknowledged, their versions become one merge
      candidate on it, and no conflict; the later edit is the winner. */
  lemma AcknowledgedEditsMerge(w: World, path: Path, was: Version, f: Entry, g: Entry, s: int, t: int, x: Version, y: Version)
    requires Inv(w) && Acknowledged(w, path, was)
    requires f.File? && g.File? && f != was.entry && g != was.entry && f != g
    requires Decided(w.a, x, path, f, s) && Decided(w.b, y, path, g, t)
    ensures var d := Decide(Record(path, x), Record(path, y));
            && d.conflicts == [] && |d.merges| == 1
            && d.merges[0].base == BaseVersion(was.Id(), was.entry, was.baseAuthenticator)
            && (s > t ==> d.merges[0].winner.version == x && d.merges[0].loser.version == y)
            && (t > s ==> d.merges[0].winner.version == y && d.merges[0].loser.version == x)
  {
    EditOfAcknowledged(w, true, path, was, f, s, x);
    EditOfAcknowledged(w, false, path, was, g, t, y);
    EditsOfOneBase(Record(path, x), Record(path, y));
  }
}
