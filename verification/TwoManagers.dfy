/** Two managers reconciling one zone at the same time: each lists the zone, then sends its deletions, then its
    upserts, while the other does the same. A deletion goes by name and type, wherever the record points by
    then, so the two can get in each other's way where run after run they do not. */
module TwoManagers {
  import opened Zones

  /** A manager, known by its edge IP, and the names it wants. */
  datatype Fleet = Fleet(want: set<string>, ip: string)

  datatype Write = Delete(from: string, name: string) | Upsert(from: string, name: string)

  function Apply(z: Pointers, w: Write): Pointers {
    match w
    case Delete(_, n) => z - {A(n)}
    case Upsert(ip, n) => z[A(n) := ip]
  }

  function ApplyAll(z: Pointers, ws: seq<Write>): Pointers {
    if ws == [] then z else Apply(ApplyAll(z, ws[..|ws| - 1]), ws[|ws| - 1])
  }

  /** What a manager that has listed `z` goes on to write. */
  predicate Plans(z: Pointers, f: Fleet, w: Write) {
    w.from == f.ip && if w.Delete? then w.name in Surplus(z, f.want, f.ip) else w.name in Missing(z, f.want, f.ip)
  }

  /** Both managers list `z`, and then their writes arrive in some order: all of them, nothing else, and each
      manager's deletions before its upserts. */
  ghost predicate Interleaves(z: Pointers, f: Fleet, g: Fleet, ws: seq<Write>) {
    && (forall w :: w in ws <==> Plans(z, f, w) || Plans(z, g, w))
    && (forall i, j :: 0 <= i < j < |ws| && ws[i].Upsert? && ws[j].Delete? ==> ws[i].from != ws[j].from)
  }

  /** Where both fleets are in order. */
  function Both(z: Pointers, f: Fleet, g: Fleet): Pointers {
    Target(Target(z, f.want, f.ip), g.want, g.ip)
  }

  predicate Rivals(f: Fleet, g: Fleet) {
    f.ip != g.ip && f.want !! g.want
  }

  /** A name one manager wants, while it still points at the other, which does not want it. */
  predicate Contested(z: Pointers, f: Fleet, g: Fleet, n: string) {
    || (n in Surplus(z, f.want, f.ip) && n in Missing(z, g.want, g.ip))
    || (n in Surplus(z, g.want, g.ip) && n in Missing(z, f.want, f.ip))
  }

  // ---------------------------------------------------------------- what writes do to one name

  predicate About(w: Write, k: Key) {
    k == A(w.name)
  }

  lemma {:induction false} Untouched(z: Pointers, ws: seq<Write>, k: Key)
    requires forall w :: w in ws ==> !About(w, k)
    ensures SameAt(ApplyAll(z, ws), z, k)
  {
    if ws != [] {
      assert ws[|ws| - 1] in ws && forall w :: w in ws[..|ws| - 1] ==> w in ws;
      Untouched(z, ws[..|ws| - 1], k);
    }
  }

  lemma {:induction false} TouchedBy(z: Pointers, ws: seq<Write>, w: Write)
    requires w in ws && forall v :: v in ws && About(v, A(w.name)) ==> v == w
    ensures SameAt(ApplyAll(z, ws), Apply(z, w), A(w.name))
  {
    var n := |ws| - 1;
    assert ws[n] in ws && forall v :: v in ws[..n] ==> v in ws;
    if About(ws[n], A(w.name)) {
      assert ws[n] == w;
    } else {
      assert w in ws[..n];
      TouchedBy(z, ws[..n], w);
    }
  }

  /** A name that is not contested is written by one write at most, and to the right end. */
  lemma Uncontested(z: Pointers, f: Fleet, g: Fleet, ws: seq<Write>, k: Key)
    requires Rivals(f, g) && Interleaves(z, f, g, ws) && (k.typ == "A" ==> !Contested(z, f, g, k.name))
    ensures SameAt(ApplyAll(z, ws), Both(z, f, g), k)
  {
    BothAt(z, f, g, k);
    if w :| w in ws && About(w, k) {
      assert forall v :: v in ws && About(v, k) ==> v == w;
      TouchedBy(z, ws, w);
    } else {
      Untouched(z, ws, k);
      if k.typ == "A" {
        assert k == A(k.name);
        NoWrite(z, f, g, ws, k.name);
        NoWrite(z, g, f, ws, k.name);
      }
    }
  }

  lemma NoWrite(z: Pointers, f: Fleet, g: Fleet, ws: seq<Write>, n: string)
    requires forall w :: w in ws <==> Plans(z, f, w) || Plans(z, g, w)
    requires forall w :: w in ws ==> !About(w, A(n))
    ensures n !in Surplus(z, f.want, f.ip) && n !in Missing(z, f.want, f.ip)
  {
    assert Plans(z, f, Delete(f.ip, n)) <==> n in Surplus(z, f.want, f.ip);
    assert Plans(z, f, Upsert(f.ip, n)) <==> n in Missing(z, f.want, f.ip);
    assert About(Delete(f.ip, n), A(n)) && About(Upsert(f.ip, n), A(n));
  }

  lemma BothAt(z: Pointers, f: Fleet, g: Fleet, k: Key)
    requires Rivals(f, g)
    ensures var both := Both(z, f, g);
            if Wanted(f.want, k) then Mine(both, f.ip, k)
            else if Wanted(g.want, k) then Mine(both, g.ip, k)
            else if Mine(z, f.ip, k) || Mine(z, g.ip, k) then k !in both
            else SameAt(both, z, k)
  {
  }

  // ---------------------------------------------------------------- the run that goes wrong

  lemma {:induction false} InSomeOrder<T>(s: set<T>) returns (order: seq<T>)
    ensures forall x :: x in order <==> x in s
    decreases |s|
  {
    order := [];
    if s != {} {
      var x :| x in s;
      var rest := InSomeOrder(s - {x});
      order := rest + [x];
    }
  }

  /** One manager's run: its deletions, then its upserts. */
  lemma OwnWrites(z: Pointers, f: Fleet) returns (ws: seq<Write>)
    ensures forall w :: w in ws <==> Plans(z, f, w)
    ensures forall i, j :: 0 <= i < j < |ws| ==> !(ws[i].Upsert? && ws[j].Delete?)
  {
    var deletes := InSomeOrder(set n | n in Surplus(z, f.want, f.ip) :: Delete(f.ip, n));
    var upserts := InSomeOrder(set n | n in Missing(z, f.want, f.ip) :: Upsert(f.ip, n));
    ws := deletes + upserts;
    assert forall i :: 0 <= i < |deletes| ==> deletes[i] in deletes;
    assert forall i :: 0 <= i < |upserts| ==> upserts[i] in upserts;
    forall w
      ensures w in ws <==> Plans(z, f, w)
    {
      assert w == if w.Delete? then Delete(w.from, w.name) else Upsert(w.from, w.name);
    }
  }

  lemma {:induction false} ApplyJoin(z: Pointers, front: seq<Write>, back: seq<Write>)
    ensures ApplyAll(z, front + back) == ApplyAll(ApplyAll(z, front), back)
  {
    if back == [] {
      assert front + back == front;
    } else {
      var n := |back| - 1;
      ApplyJoin(z, front, back[..n]);
      assert (front + back)[..|front + back| - 1] == front + back[..n];
    }
  }

  /** If the manager that is to have a contested name is through before the other starts writing, the name
      is lost. */
  lemma ContestedIsLost(z: Pointers, f: Fleet, g: Fleet, n: string) returns (ws: seq<Write>)
    requires Rivals(f, g) && n in Surplus(z, f.want, f.ip) && n in Missing(z, g.want, g.ip)
    ensures Interleaves(z, f, g, ws) && A(n) !in ApplyAll(z, ws) && Mine(Both(z, f, g), g.ip, A(n))
  {
    var first := OwnWrites(z, g);
    var second := OwnWrites(z, f);
    ws := first + second;
    forall i, j | 0 <= i < j < |ws| && ws[i].Upsert? && ws[j].Delete?
      ensures ws[i].from != ws[j].from
    {
      assert ws[i] in ws && ws[j] in ws;
      assert i < |first| ==> first[i] in first;
      assert j >= |first| ==> second[j - |first|] in second;
    }
    ApplyJoin(z, first, second);
    assert Plans(z, f, Delete(f.ip, n));
    TouchedBy(ApplyAll(z, first), second, Delete(f.ip, n));
    BothAt(z, f, g, A(n));
  }

  // ---------------------------------------------------------------- the condition

  /** When both list at the start, every interleaving brings both fleets in order exactly when no name is
      contested. */
  lemma ListedTogetherSafeIff(z: Pointers, f: Fleet, g: Fleet)
    requires Rivals(f, g)
    ensures (forall ws :: Interleaves(z, f, g, ws) ==> ApplyAll(z, ws) == Both(z, f, g))
       <==> !exists n :: Contested(z, f, g, n)
  {
    if n :| Contested(z, f, g, n) {
      FleetsCommute(z, f.want, f.ip, g.want, g.ip);
      if n in Surplus(z, f.want, f.ip) && n in Missing(z, g.want, g.ip) {
        var ws := ContestedIsLost(z, f, g, n);
        assert Interleaves(z, f, g, ws) && ApplyAll(z, ws) != Both(z, f, g);
      } else {
        var ws := ContestedIsLost(z, g, f, n);
        assert Interleaves(z, f, g, ws) && ApplyAll(z, ws) != Both(z, f, g);
      }
    } else {
      forall ws | Interleaves(z, f, g, ws)
        ensures ApplyAll(z, ws) == Both(z, f, g)
      {
        forall k: Key
          ensures SameAt(ApplyAll(z, ws), Both(z, f, g), k)
        {
          Uncontested(z, f, g, ws, k);
        }
        SameEverywhere(ApplyAll(z, ws), Both(z, f, g));
      }
    }
  }

  // ---------------------------------------------------------------- listing while the other writes

  /** What a manager may have written so far: some of what it plans, upserts only once all deletions are made. */
  ghost predicate Begun(z: Pointers, f: Fleet, done: seq<Write>) {
    && (forall w :: w in done ==> Plans(z, f, w))
    && (forall i, j :: 0 <= i < j < |done| && done[i].Upsert? ==> done[j].Upsert?)
    && (forall w: Write, v: Write :: w in done && w.Upsert? && v.Delete? && Plans(z, f, v) ==> v in done)
  }

  /** One manager has listed `z` and made the writes `done` when the other lists. Then the writes that the first
      has left and those of the second arrive in some order. */
  ghost predicate Overlaps(z: Pointers, f: Fleet, g: Fleet, done: seq<Write>, ws: seq<Write>) {
    && (forall w :: w in ws <==> (Plans(z, f, w) && w !in done) || Plans(ApplyAll(z, done), g, w))
    && (forall i, j :: 0 <= i < j < |ws| && ws[i].Upsert? && ws[j].Delete? ==> ws[i].from != ws[j].from)
  }

  predicate Pending(f: Fleet, done: seq<Write>, n: string) {
    Delete(f.ip, n) !in done && Upsert(f.ip, n) !in done
  }

  lemma AfterSome(z: Pointers, f: Fleet, done: seq<Write>, n: string)
    requires forall w :: w in done ==> Plans(z, f, w)
    ensures var z' := ApplyAll(z, done);
            && (Delete(f.ip, n) in done ==> A(n) !in z')
            && (Upsert(f.ip, n) in done ==> Mine(z', f.ip, A(n)))
            && (Pending(f, done, n) ==> SameAt(z', z, A(n)))
  {
    if Delete(f.ip, n) in done {
      assert Plans(z, f, Delete(f.ip, n));
      TouchedBy(z, done, Delete(f.ip, n));
    } else if Upsert(f.ip, n) in done {
      assert Plans(z, f, Upsert(f.ip, n));
      TouchedBy(z, done, Upsert(f.ip, n));
    } else {
      assert forall w :: w in done ==> w == if w.Delete? then Delete(f.ip, w.name) else Upsert(f.ip, w.name);
      Untouched(z, done, A(n));
    }
  }

  /** A manager's plan shrinks as it writes, and the zone stays between the old one and its target. */
  lemma PlanShrinks(z: Pointers, f: Fleet, done: seq<Write>)
    requires forall w :: w in done ==> Plans(z, f, w)
    ensures forall w: Write :: Plans(ApplyAll(z, done), f, w) <==> Plans(z, f, w) && w !in done
    ensures Between(z, ApplyAll(z, done), f.want, f.ip)
  {
    var z' := ApplyAll(z, done);
    forall w
      ensures Plans(z', f, w) <==> Plans(z, f, w) && w !in done
    {
      AfterSome(z, f, done, w.name);
    }
    forall k: Key
      ensures SameAt(z', z, k) || SameAt(z', Target(z, f.want, f.ip), k)
    {
      TargetAt(z, f.want, f.ip, k);
      if k.typ == "A" {
        assert k == A(k.name);
        AfterSome(z, f, done, k.name);
      } else {
        Untouched(z, done, k);
      }
    }
  }

  /** Only the names the first manager has still to write can be contested. */
  lemma ContestedLeft(z: Pointers, f: Fleet, g: Fleet, done: seq<Write>, n: string)
    requires Rivals(f, g) && forall w :: w in done ==> Plans(z, f, w)
    ensures Contested(ApplyAll(z, done), f, g, n) <==> Contested(z, f, g, n) && Pending(f, done, n)
  {
    AfterSome(z, f, done, n);
    if !Pending(f, done, n) {
      assert Plans(z, f, Delete(f.ip, n)) || Plans(z, f, Upsert(f.ip, n));
    }
  }

  /** Wherever in the first manager's run the second lists: every interleaving brings both fleets in order
      exactly when no name is contested that the first has still to write. */
  lemma InterleavedRunsAreSafeIff(z: Pointers, f: Fleet, g: Fleet, done: seq<Write>)
    requires Rivals(f, g) && Begun(z, f, done)
    ensures (forall ws :: Overlaps(z, f, g, done, ws) ==> ApplyAll(z, done + ws) == Both(z, f, g))
       <==> !exists n :: Contested(z, f, g, n) && Pending(f, done, n)
  {
    var z' := ApplyAll(z, done);
    PlanShrinks(z, f, done);
    RerunReachesTarget(z, z', f.want, f.ip);
    ListedTogetherSafeIff(z', f, g);
    forall ws
      ensures Overlaps(z, f, g, done, ws) <==> Interleaves(z', f, g, ws)
      ensures ApplyAll(z, done + ws) == ApplyAll(z', ws)
    {
      ApplyJoin(z, done, ws);
    }
    forall n
      ensures Contested(z', f, g, n) <==> Contested(z, f, g, n) && Pending(f, done, n)
    {
      ContestedLeft(z, f, g, done, n);
    }
  }
}
