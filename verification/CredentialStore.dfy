/** The credential store across the port: an append-only list of rows that stands for one entry per scope.

    `FakeStore` keeps every credential it ever stored and marks the superseded ones; readers scan it
    backwards. Each verb is shown to do to the entry of its scope what the port promises, and nothing
    to any other scope. */
module CredentialStore {
  import opened Outcomes

  datatype Scope = Scope(company: nat, provider: string, accountRef: string)

  datatype Bundle = Bundle(accessToken: string, refreshToken: Option<string>, expiresAt: int,
                           grantedScope: Option<string>)

  datatype StoreFailure = NotFound | NotActive | Expired | DuplicateActive | Transport | Other(code: string)

  /** What a scope stands for: never issued, one live credential, or withdrawn. */
  datatype Entry = Never | Live(credential: Bundle) | Dead

  // ---------------------------------------------------------------- the port's promise, per scope

  function Issued(e: Entry, b: Bundle): Entry {
    if e.Live? then e else Live(b)
  }

  function IssueAnswer(e: Entry): Option<StoreFailure> {
    if e.Live? then Some(DuplicateActive) else None
  }

  function ReadAnswer(e: Entry, now: int): Result<Bundle, StoreFailure> {
    match e
    case Never => Err(NotFound)
    case Dead => Err(NotActive)
    case Live(b) => if b.expiresAt <= now then Err(Expired) else Ok(b)
  }

  function Rotated(e: Entry, b: Bundle): Entry {
    if e.Live? then Live(b) else e
  }

  function RotateAnswer(e: Entry): Option<StoreFailure> {
    if e.Live? then None else Some(NotFound)
  }

  function Revoked(e: Entry): Entry {
    if e.Never? then Never else Dead
  }

  function RevokeAnswer(e: Entry): Option<StoreFailure> {
    if e.Never? then Some(NotFound) else None
  }

  // ---------------------------------------------------------------- the row list

  datatype Row = Row(scope: Scope, credential: Bundle, revoked: bool)

  predicate LiveAt(rows: seq<Row>, s: Scope, i: int) {
    0 <= i < |rows| && rows[i].scope == s && !rows[i].revoked
  }

  predicate Ever(rows: seq<Row>, s: Scope) {
    exists i :: 0 <= i < |rows| && rows[i].scope == s
  }

  ghost predicate HasLive(rows: seq<Row>, s: Scope) {
    exists i :: LiveAt(rows, s, i)
  }

  /** At most one live row a scope: the backwards scan has one thing to find. */
  ghost predicate Unambiguous(rows: seq<Row>) {
    forall s, i, j | LiveAt(rows, s, i) && LiveAt(rows, s, j) :: i == j
  }

  ghost function EntryOf(rows: seq<Row>, s: Scope): Entry {
    if exists i :: LiveAt(rows, s, i) then
      var i :| LiveAt(rows, s, i);
      Live(rows[i].credential)
    else if Ever(rows, s) then Dead
    else Never
  }

  lemma LiveEntry(rows: seq<Row>, s: Scope, i: int)
    requires Unambiguous(rows) && LiveAt(rows, s, i)
    ensures EntryOf(rows, s) == Live(rows[i].credential)
  {
  }

  /** Nothing stored is lost or rewritten, and no revoked row comes back. */
  ghost predicate Grows(a: seq<Row>, b: seq<Row>) {
    && |a| <= |b|
    && forall i | 0 <= i < |a| ::
      b[i].scope == a[i].scope && b[i].credential == a[i].credential && (a[i].revoked ==> b[i].revoked)
  }

  datatype Verb =
    | Issue(scope: Scope, bundle: Bundle)
    | Read(scope: Scope)
    | Rotate(scope: Scope, bundle: Bundle)
    | Revoke(scope: Scope)

  function After(e: Entry, v: Verb): Entry {
    match v
    case Issue(_, b) => Issued(e, b)
    case Read(_) => e
    case Rotate(_, b) => Rotated(e, b)
    case Revoke(_) => Revoked(e)
  }

  /** What a verb may do to the list. */
  ghost predicate Obeys(a: seq<Row>, v: Verb, b: seq<Row>) {
    && Unambiguous(b)
    && Grows(a, b)
    && EntryOf(b, v.scope) == After(EntryOf(a, v.scope), v)
    && forall s | s != v.scope :: EntryOf(b, s) == EntryOf(a, s)
  }

  lemma EntrySame(a: seq<Row>, b: seq<Row>, s: Scope)
    requires Unambiguous(a) && Unambiguous(b) && |a| <= |b|
    requires forall i | 0 <= i < |a| :: b[i].scope == a[i].scope && b[i].credential == a[i].credential
    requires forall i | 0 <= i < |a| && a[i].scope == s :: b[i] == a[i]
    requires forall i | |a| <= i < |b| :: b[i].scope != s
    ensures EntryOf(b, s) == EntryOf(a, s)
  {
    if i :| LiveAt(a, s, i) {
      LiveEntry(a, s, i);
      assert LiveAt(b, s, i);
      LiveEntry(b, s, i);
    } else {
      assert forall i | LiveAt(b, s, i) :: LiveAt(a, s, i);
      if Ever(a, s) {
        var i :| 0 <= i < |a| && a[i].scope == s;
        assert b[i].scope == s;
      }
      if Ever(b, s) {
        var i :| 0 <= i < |b| && b[i].scope == s;
        assert a[i].scope == s;
      }
    }
  }

  lemma OthersUntouched(a: seq<Row>, b: seq<Row>, s: Scope)
    requires Unambiguous(a) && Unambiguous(b) && Grows(a, b)
    requires forall i | 0 <= i < |a| && a[i].scope != s :: b[i] == a[i]
    requires forall i | |a| <= i < |b| :: b[i].scope == s
    ensures forall t | t != s :: EntryOf(b, t) == EntryOf(a, t)
  {
    forall t | t != s ensures EntryOf(b, t) == EntryOf(a, t) { EntrySame(a, b, t); }
  }

  class FakeStore {
    var rows: seq<Row>
    var failWith: Option<StoreFailure>

    ghost predicate Valid()
      reads this
    {
      Unambiguous(rows)
    }

    constructor ()
      ensures Valid() && rows == [] && failWith == None
      ensures forall s :: EntryOf(rows, s) == Never
    {
      rows := [];
      failWith := None;
    }

    /** The latest non-revoked row of the scope. */
    method ActiveRowIndex(s: Scope) returns (found: Option<nat>)
      ensures found.Some? ==> LiveAt(rows, s, found.value) && forall i | LiveAt(rows, s, i) :: i <= found.value
      ensures found.None? ==> forall i :: !LiveAt(rows, s, i)
    {
      var i := |rows|;
      while i > 0
        invariant 0 <= i <= |rows|
        invariant forall j | LiveAt(rows, s, j) :: j < i
      {
        i := i - 1;
        if !rows[i].revoked && rows[i].scope == s {
          return Some(i);
        }
      }
      return None;
    }

    method Issue(s: Scope, purpose: string, bundle: Bundle, expiresAt: int) returns (failure: Option<StoreFailure>)
      requires Valid()
      modifies this`rows
      ensures Valid()
      ensures failWith.Some? ==> failure == failWith && rows == old(rows)
      ensures failWith.None? ==>
        && failure == IssueAnswer(old(EntryOf(rows, s)))
        && Obeys(old(rows), Verb.Issue(s, bundle.(expiresAt := expiresAt)), rows)
        && (HasLive(old(rows), s) ==> failure == Some(DuplicateActive) && rows == old(rows))
        && (!HasLive(old(rows), s) ==>
              failure == None && rows == old(rows) + [Row(s, bundle.(expiresAt := expiresAt), false)])
    {
      if failWith.Some? {
        return failWith;
      }
      var active := ActiveRowIndex(s);
      if active.Some? {
        LiveEntry(rows, s, active.value);
        return Some(DuplicateActive);
      }
      Append(s, bundle.(expiresAt := expiresAt));
      return None;
    }

    /** Push one live row for a scope that has none. */
    method Append(s: Scope, b: Bundle)
      requires Valid() && forall i :: !LiveAt(rows, s, i)
      modifies this`rows
      ensures Valid() && rows == old(rows) + [Row(s, b, false)]
      ensures EntryOf(rows, s) == Live(b)
      ensures forall t | t != s :: EntryOf(rows, t) == old(EntryOf(rows, t))
    {
      ghost var before := rows;
      rows := rows + [Row(s, b, false)];
      assert forall i, t | LiveAt(rows, t, i) && i < |before| :: LiveAt(before, t, i);
      assert LiveAt(rows, s, |before|);
      LiveEntry(rows, s, |before|);
      OthersUntouched(before, rows, s);
    }

    method ReadToken(s: Scope, now: int) returns (r: Result<Bundle, StoreFailure>)
      requires Valid()
      ensures failWith.Some? ==> r == Err(failWith.value)
      ensures failWith.None? ==> r == ReadAnswer(EntryOf(rows, s), now)
      ensures failWith.None? && !Ever(rows, s) ==> r == Err(NotFound)
      ensures failWith.None? && Ever(rows, s) && !HasLive(rows, s) ==> r == Err(NotActive)
      ensures failWith.None? ==> forall i | LiveAt(rows, s, i) ::
        r == if rows[i].credential.expiresAt <= now then Err(Expired) else Ok(rows[i].credential)
    {
      if failWith.Some? {
        return Err(failWith.value);
      }
      var active := ActiveRowIndex(s);
      if active.None? {
        if i :| 0 <= i < |rows| && rows[i].scope == s {
          return Err(NotActive);
        }
        return Err(NotFound);
      }
      var row := rows[active.value];
      LiveEntry(rows, s, active.value);
      if row.credential.expiresAt <= now {
        return Err(Expired);
      }
      return Ok(row.credential);
    }

    method Rotate(s: Scope, bundle: Bundle, expiresAt: int) returns (failure: Option<StoreFailure>)
      requires Valid()
      modifies this`rows
      ensures Valid()
      ensures failWith.Some? ==> failure == failWith && rows == old(rows)
      ensures failWith.None? ==>
        && failure == RotateAnswer(old(EntryOf(rows, s)))
        && Obeys(old(rows), Verb.Rotate(s, bundle.(expiresAt := expiresAt)), rows)
        && (!HasLive(old(rows), s) ==> failure == Some(NotFound) && rows == old(rows))
        && (forall p | LiveAt(old(rows), s, p) ::
              failure == None && rows == old(rows)[p := Row(s, old(rows)[p].credential, true)]
                                         + [Row(s, bundle.(expiresAt := expiresAt), false)])
    {
      if failWith.Some? {
        return failWith;
      }
      var predecessor := ActiveRowIndex(s);
      if predecessor.None? {
        return Some(NotFound);
      }
      var p := predecessor.value;
      LiveEntry(rows, s, p);
      ghost var before := rows;
      rows := rows[p := rows[p].(revoked := true)];
      assert forall i, t | LiveAt(rows, t, i) :: LiveAt(before, t, i);
      OthersUntouched(before, rows, s);
      Append(s, bundle.(expiresAt := expiresAt));
      return None;
    }

    method Revoke(s: Scope) returns (failure: Option<StoreFailure>)
      requires Valid()
      modifies this`rows
      ensures Valid()
      ensures failWith.Some? ==> failure == failWith && rows == old(rows)
      ensures failWith.None? ==>
        && failure == RevokeAnswer(old(EntryOf(rows, s)))
        && Obeys(old(rows), Verb.Revoke(s), rows)
        && failure == (if Ever(old(rows), s) then None else Some(NotFound))
        && |rows| == |old(rows)| && !HasLive(rows, s)
        && forall i | 0 <= i < |rows| :: rows[i] == if rows[i].scope == s then Row(s, old(rows)[i].credential, true)
                                                    else old(rows)[i]
    {
      if failWith.Some? {
        return failWith;
      }
      if !(exists i :: 0 <= i < |rows| && rows[i].scope == s) {
        return Some(NotFound);
      }
      ghost var before := rows;
      var k := 0;
      while k < |rows|
        invariant 0 <= k <= |rows| == |before|
        invariant forall i | 0 <= i < k ::
          rows[i] == if before[i].scope == s then before[i].(revoked := true) else before[i]
        invariant forall i | k <= i < |rows| :: rows[i] == before[i]
      {
        if rows[k].scope == s {
          rows := rows[k := rows[k].(revoked := true)];
        }
        k := k + 1;
      }
      assert forall i, t | LiveAt(rows, t, i) :: LiveAt(before, t, i) && t != s;
      OthersUntouched(before, rows, s);
      assert Ever(rows, s) by {
        var i :| 0 <= i < |before| && before[i].scope == s;
        assert rows[i].scope == s;
      }
      return None;
    }
  }

  // ---------------------------------------------------------------- any sequence of verbs

  /** The lists a store passes through under a sequence of verbs, failed calls left out. */
  ghost predicate Obeyed(lists: seq<seq<Row>>, verbs: seq<Verb>) {
    && |lists| == |verbs| + 1
    && Unambiguous(lists[0])
    && forall i | 0 <= i < |verbs| :: Obeys(lists[i], verbs[i], lists[i + 1])
  }

  /** One scope's entry after the verbs that name it. */
  function Folded(e: Entry, s: Scope, verbs: seq<Verb>): Entry {
    if verbs == [] then e
    else
      var last := verbs[|verbs| - 1];
      var before := Folded(e, s, verbs[..|verbs| - 1]);
      if last.scope == s then After(before, last) else before
  }

  /** The list stands for the map: after any verbs, each scope's entry is what its own verbs make of it,
      and every row ever stored is still there, revoked if it once was. */
  lemma {:induction false} ListStandsForMap(lists: seq<seq<Row>>, verbs: seq<Verb>, s: Scope)
    requires Obeyed(lists, verbs)
    ensures Unambiguous(lists[|verbs|]) && Grows(lists[0], lists[|verbs|])
    ensures EntryOf(lists[|verbs|], s) == Folded(EntryOf(lists[0], s), s, verbs)
    decreases |verbs|
  {
    if verbs == [] {
    } else {
      var n := |verbs| - 1;
      assert Obeys(lists[n], verbs[n], lists[n + 1]);
      assert Obeyed(lists[..n + 1], verbs[..n]) by {
        forall i | 0 <= i < n ensures Obeys(lists[..n + 1][i], verbs[..n][i], lists[..n + 1][i + 1]) {
          assert Obeys(lists[i], verbs[i], lists[i + 1]);
        }
      }
      ListStandsForMap(lists[..n + 1], verbs[..n], s);
    }
  }
}
