/**
 Migration of the metadata directory: the legacy directory is renamed as a whole if there is
 no current one, otherwise its entries are merged one rename at a time. The process may be
 killed between any two renames and started again.
 */
module MetadataMigration {
  import opened Common

  datatype Name = Name(text: string)
  type Content = nat

  type Directory = map<Name, Content>

  datatype Store = Store(legacy: Option<Directory>, current: Option<Directory>)

  const HASH_DATABASE := "hashes.db"

  /** The hash database with its WAL, SHM and journal companions, whatever the case of the name. */
  predicate InFamily(name: Name) {
    var lower := Lower(name.text);
    lower == HASH_DATABASE || HASH_DATABASE + "-" <= lower
  }

  // ----- the merge as a value -----

  /** The entries a merge moves: neither in the family nor in the way of a current entry. */
  predicate Movable(legacy: Directory, current: Directory, name: Name) {
    name in legacy && !InFamily(name) && name !in current
  }

  /** One iteration of the loop. */
  function VisitEntry(s: Store, name: Name): Store
    requires s.legacy.Some? && s.current.Some?
  {
    if Movable(s.legacy.value, s.current.value, name)
    then Store(Some(s.legacy.value - {name}), Some(s.current.value[name := s.legacy.value[name]]))
    else s
  }

  function Sweep(s: Store, names: seq<Name>): (r: Store)
    requires s.legacy.Some? && s.current.Some?
    ensures r.legacy.Some? && r.current.Some?
    decreases |names|
  {
    if names == [] then s else Sweep(VisitEntry(s, names[0]), names[1..])
  }

  function RemoveEmptied(s: Store): Store {
    if s.legacy == Some(map[]) then s.(legacy := None) else s
  }

  /** A whole run, for a directory listing in the order `names`. */
  function Migrate(s: Store, names: seq<Name>): Store {
    if s.legacy.None? then s
    else if s.current.None? then Store(None, s.legacy)
    else RemoveEmptied(Sweep(s, names))
  }

  /** A run killed after visiting the first `visited` entries, or before the directory rename. */
  function Killed(s: Store, names: seq<Name>, visited: nat): Store
    requires visited <= |names|
  {
    if s.legacy.None? || s.current.None? then s else Sweep(s, names[..visited])
  }

  /** Any listing of the legacy directory, in any order. */
  ghost predicate Listing(s: Store, names: seq<Name>) {
    s.legacy.Some? ==> forall n :: n in names <==> n in s.legacy.value
  }

  // ----- the outcome, independent of order -----

  ghost function Moved(legacy: Directory, current: Directory): Directory {
    map n | n in legacy && Movable(legacy, current, n) :: legacy[n]
  }

  /** The final state as a set-level definition: all movable entries have moved. */
  ghost function Outcome(s: Store): Store {
    if s.legacy.None? then s
    else if s.current.None? then Store(None, s.legacy)
    else
      var legacy, current := s.legacy.value, s.current.value;
      var moved := Moved(legacy, current);
      RemoveEmptied(Store(Some(legacy - moved.Keys), Some(current + moved)))
  }

  /** From `l`, `c` to `l'`, `c'` exactly the movable entries among `names` have moved. */
  ghost predicate SweptPart(l: Directory, c: Directory, l': Directory, c': Directory, names: seq<Name>) {
    && (forall n :: n in l' <==> n in l && !(n in names && Movable(l, c, n)))
    && (forall n <- l' :: n in l && l'[n] == l[n])
    && (forall n :: n in c' <==> n in c || (n in names && Movable(l, c, n)))
    && (forall n <- c' :: if n in c then c'[n] == c[n] else n in l && c'[n] == l[n])
  }

  /** A sweep moves exactly the movable entries it visits, in whatever order it visits them. */
  lemma {:induction false} SweepMoves(s: Store, names: seq<Name>)
    requires s.legacy.Some? && s.current.Some?
    ensures var r := Sweep(s, names);
            SweptPart(s.legacy.value, s.current.value, r.legacy.value, r.current.value, names)
    decreases |names|
  {
    if names != [] {
      var mid := VisitEntry(s, names[0]);
      SweepMoves(mid, names[1..]);
      assert forall n :: n in names <==> n == names[0] || n in names[1..];
    }
  }

  /** Confluence: every order of the listing gives the same final state. */
  lemma MigrationIsConfluent(s: Store, names: seq<Name>)
    requires Listing(s, names)
    ensures Migrate(s, names) == Outcome(s)
  {
    if s.legacy.Some? && s.current.Some? {
      SweepMoves(s, names);
      var r := Sweep(s, names);
      var legacy, current := s.legacy.value, s.current.value;
      assert r.legacy.value == legacy - Moved(legacy, current).Keys;
      assert r.current.value == current + Moved(legacy, current);
    }
  }

  /** Moving some movable entries early does not change which entries end up where. */
  lemma LegacyPartAgrees(l: Directory, c: Directory, l': Directory, c': Directory, names: seq<Name>)
    requires SweptPart(l, c, l', c', names)
    ensures l' - Moved(l', c').Keys == l - Moved(l, c).Keys
  {
    forall n ensures n in l' - Moved(l', c').Keys <==> n in l - Moved(l, c).Keys {
      assert n in Moved(l', c') <==> Movable(l', c', n);
      assert n in Moved(l, c) <==> Movable(l, c, n);
    }
  }

  lemma CurrentPartAgrees(l: Directory, c: Directory, l': Directory, c': Directory, names: seq<Name>)
    requires SweptPart(l, c, l', c', names)
    ensures c' + Moved(l', c') == c + Moved(l, c)
  {
    forall n ensures n in c' + Moved(l', c') <==> n in c + Moved(l, c) {
      assert n in Moved(l', c') <==> Movable(l', c', n);
      assert n in Moved(l, c) <==> Movable(l, c, n);
    }
  }

  /** A killed run loses nothing of the outcome. */
  lemma KilledKeepsOutcome(s: Store, names: seq<Name>, visited: nat)
    requires Listing(s, names) && visited <= |names|
    ensures Outcome(Killed(s, names, visited)) == Outcome(s)
  {
    if s.legacy.Some? && s.current.Some? {
      SweepMoves(s, names[..visited]);
      var k := Sweep(s, names[..visited]);
      LegacyPartAgrees(s.legacy.value, s.current.value, k.legacy.value, k.current.value, names[..visited]);
      CurrentPartAgrees(s.legacy.value, s.current.value, k.legacy.value, k.current.value, names[..visited]);
    }
  }

  /** A run that may be killed: the order it saw and how far it got. */
  datatype Attempt = Attempt(names: seq<Name>, visited: nat)

  ghost predicate ValidAttempts(s: Store, attempts: seq<Attempt>)
    decreases |attempts|
  {
    attempts == [] ||
    (&& Listing(s, attempts[0].names) && attempts[0].visited <= |attempts[0].names|
     && ValidAttempts(Killed(s, attempts[0].names, attempts[0].visited), attempts[1..]))
  }

  ghost function AfterAttempts(s: Store, attempts: seq<Attempt>): Store
    requires ValidAttempts(s, attempts)
    decreases |attempts|
  {
    if attempts == [] then s
    else AfterAttempts(Killed(s, attempts[0].names, attempts[0].visited), attempts[1..])
  }

  /** After any number of killed runs, a run that completes reaches the uninterrupted outcome. */
  lemma {:induction false} MigrationIsResumable(s: Store, attempts: seq<Attempt>, names: seq<Name>)
    requires ValidAttempts(s, attempts) && Listing(AfterAttempts(s, attempts), names)
    ensures Migrate(AfterAttempts(s, attempts), names) == Outcome(s)
    decreases |attempts|
  {
    if attempts == [] {
      MigrationIsConfluent(s, names);
    } else {
      KilledKeepsOutcome(s, attempts[0].names, attempts[0].visited);
      MigrationIsResumable(Killed(s, attempts[0].names, attempts[0].visited), attempts[1..], names);
    }
  }

  lemma OutcomeIsFixed(s: Store)
    ensures Outcome(Outcome(s)) == Outcome(s)
  {
    var r := Outcome(s);
    if r.legacy.Some? {
      var legacy, current := r.legacy.value, r.current.value;
      assert forall n :: !Movable(legacy, current, n);
      assert Moved(legacy, current) == map[];
      assert legacy - Moved(legacy, current).Keys == legacy && current + Moved(legacy, current) == current;
    }
  }

  /** A further run changes nothing, in whatever order it lists what is left. */
  lemma MigrationIsIdempotent(s: Store, names: seq<Name>, again: seq<Name>)
    requires Listing(s, names) && Listing(Migrate(s, names), again)
    ensures Migrate(Migrate(s, names), again) == Migrate(s, names)
  {
    MigrationIsConfluent(s, names);
    MigrationIsConfluent(Outcome(s), again);
    OutcomeIsFixed(s);
  }

  // ----- what is conserved -----

  function Entries(d: Option<Directory>): Directory { if d.Some? then d.value else map[] }

  /** Every file is where it was or has moved, with its content; nothing is overwritten. */
  ghost predicate Conserves(s: Store, r: Store) {
    var l, c, l', c' := Entries(s.legacy), Entries(s.current), Entries(r.legacy), Entries(r.current);
    && (forall n <- c :: n in c' && c'[n] == c[n])
    && (forall n <- l :: (n in l' && l'[n] == l[n] && (n in c' ==> n in c)) || (n !in l' && n !in c && n in c' && c'[n] == l[n]))
    && (forall n <- l' :: n in l)
    && (forall n <- c' :: n in c || n in l)
  }

  lemma ConservesTrans(s: Store, r: Store, t: Store)
    requires Conserves(s, r) && Conserves(r, t)
    ensures Conserves(s, t)
  {
  }

  lemma KilledConserves(s: Store, names: seq<Name>, visited: nat)
    requires visited <= |names|
    ensures Conserves(s, Killed(s, names, visited)) && Conserves(s, Outcome(s))
  {
    if s.legacy.Some? && s.current.Some? {
      SweepMoves(s, names[..visited]);
    }
  }

  /** Neither any number of killed runs nor the complete one after them lose or overwrite a file. */
  lemma {:induction false} NothingIsLost(s: Store, attempts: seq<Attempt>)
    requires ValidAttempts(s, attempts)
    ensures Conserves(s, AfterAttempts(s, attempts))
    ensures Conserves(s, Outcome(AfterAttempts(s, attempts)))
    decreases |attempts|
  {
    if attempts == [] {
      KilledConserves(s, [], 0);
    } else {
      var k := Killed(s, attempts[0].names, attempts[0].visited);
      KilledConserves(s, attempts[0].names, attempts[0].visited);
      NothingIsLost(k, attempts[1..]);
      ConservesTrans(s, k, AfterAttempts(s, attempts));
      ConservesTrans(s, k, Outcome(AfterAttempts(s, attempts)));
    }
  }

  /** `text` is the lower-case ASCII string `lower`, in any mixture of cases. */
  predicate SpelledLike(text: string, lower: string) {
    |text| == |lower| && forall i | 0 <= i < |text| ::
      text[i] == lower[i] || ('A' <= text[i] <= 'Z' && text[i] as int + 32 == lower[i] as int)
  }

  /** A file of the hash database: the database itself or one of its companions. */
  predicate IsDatabaseFile(name: Name) {
    SpelledLike(name.text, "hashes.db") || (|name.text| >= 10 && SpelledLike(name.text[..10], "hashes.db-"))
  }

  lemma SpellingIsLower(text: string, lower: string)
    requires forall i | 0 <= i < |lower| :: !('A' <= lower[i] <= 'Z')
    ensures SpelledLike(text, lower) <==> Lower(text) == lower
  {
    if Lower(text) == lower {
      forall i | 0 <= i < |text| ensures text[i] == lower[i] || ('A' <= text[i] <= 'Z' && text[i] as int + 32 == lower[i] as int) {
        assert LowerChar(text[i]) == lower[i];
      }
    }
  }

  /** The loop's test recognises exactly the files of the hash database. */
  lemma FamilyIsDatabase(name: Name)
    ensures InFamily(name) <==> IsDatabaseFile(name)
  {
    var text, lower := name.text, Lower(name.text);
    SpellingIsLower(text, "hashes.db");
    if |text| >= 10 {
      SpellingIsLower(text[..10], "hashes.db-");
      assert Lower(text[..10]) == lower[..10];
    }
    assert HASH_DATABASE + "-" == "hashes.db-";
    assert "hashes.db-" <= lower <==> |lower| >= 10 && lower[..10] == "hashes.db-";
  }

  /** All of the legacy database is still in the legacy directory. */
  ghost predicate FamilyStays(s: Store, r: Store) {
    forall n <- Entries(s.legacy) :: IsDatabaseFile(n) ==>
      n in Entries(r.legacy) && (n in Entries(r.current) ==> n in Entries(s.current))
  }

  lemma {:induction false} FamilySurvivesAttempts(s: Store, attempts: seq<Attempt>)
    requires ValidAttempts(s, attempts) && s.legacy.Some?
    ensures var k := AfterAttempts(s, attempts);
            FamilyStays(s, k) && k.legacy.Some? && (k.current.None? <==> s.current.None?) && (s.current.None? ==> k == s)
    decreases |attempts|
  {
    if attempts != [] {
      var k := Killed(s, attempts[0].names, attempts[0].visited);
      forall n ensures InFamily(n) <==> IsDatabaseFile(n) {
        FamilyIsDatabase(n);
      }
      if s.current.Some? {
        SweepMoves(s, attempts[0].names[..attempts[0].visited]);
      }
      FamilySurvivesAttempts(k, attempts[1..]);
    }
  }

  /**
   The legacy database family stays together: after any number of killed runs all of it is in
   place; after the complete run all of it is in place, or all of it moved with the directory.
   */
  lemma FamilyIsNeverSplit(s: Store, attempts: seq<Attempt>)
    requires ValidAttempts(s, attempts) && s.legacy.Some?
    ensures var k := AfterAttempts(s, attempts);
            && FamilyStays(s, k)
            && (if s.current.Some? then FamilyStays(s, Outcome(k)) else Outcome(k) == Store(None, s.legacy))
  {
    FamilySurvivesAttempts(s, attempts);
    forall n ensures InFamily(n) <==> IsDatabaseFile(n) {
      FamilyIsDatabase(n);
    }
  }

  /** What stays in the legacy directory next to a current one: the database, and names in use. */
  predicate Stays(current: Directory, name: Name) { IsDatabaseFile(name) || name in current }

  /** The state after a complete run from `s`, entry by entry. */
  ghost predicate Completed(s: Store, r: Store) {
    if s.legacy.None? then r == s
    else if s.current.None? then r == Store(None, s.legacy)
    else
      var l, c := s.legacy.value, s.current.value;
      && r.current.Some?
      && (forall n :: n in Entries(r.legacy) <==> n in l && Stays(c, n))
      && (forall n <- Entries(r.legacy) :: r.legacy.value[n] == l[n])
      && (forall n :: n in r.current.value <==> n in c || (n in l && !IsDatabaseFile(n)))
      && (forall n <- r.current.value :: r.current.value[n] == if n in c then c[n] else l[n])
      && (r.legacy.None? <==> forall n <- l :: !Stays(c, n))
  }

  /**
   After any number of killed runs, a complete run leaves in the legacy directory exactly the
   hash database and the names already in use, has moved every other file with its content,
   and has removed the directory exactly if nothing stays in it.
   */
  lemma CompleteRunIsExact(s: Store, attempts: seq<Attempt>, names: seq<Name>)
    requires ValidAttempts(s, attempts) && Listing(AfterAttempts(s, attempts), names)
    ensures Completed(s, Migrate(AfterAttempts(s, attempts), names))
  {
    MigrationIsResumable(s, attempts, names);
    forall n ensures InFamily(n) <==> IsDatabaseFile(n) {
      FamilyIsDatabase(n);
    }
    if s.legacy.Some? && s.current.Some? {
      OutcomeIsExact(s);
    }
  }

  /** A killed run has moved exactly what it had come to, and touched nothing else. */
  lemma KilledIsPartial(s: Store, names: seq<Name>, visited: nat, n: Name)
    requires visited <= |names|
    ensures s.legacy.None? || s.current.None? ==> Killed(s, names, visited) == s
    ensures s.legacy.Some? && s.current.Some? ==>
              var k := Killed(s, names, visited);
              var moved := n in s.legacy.value && n in names[..visited] && !Stays(s.current.value, n);
              && k.legacy.Some? && k.current.Some?
              && (n in k.legacy.value <==> n in s.legacy.value && !moved)
              && (n in k.current.value <==> n in s.current.value || moved)
  {
    FamilyIsDatabase(n);
    if s.legacy.Some? && s.current.Some? {
      SweepMoves(s, names[..visited]);
    }
  }

  lemma OutcomeIsExact(s: Store)
    requires s.legacy.Some? && s.current.Some? && forall n :: InFamily(n) <==> IsDatabaseFile(n)
    ensures Completed(s, Outcome(s))
  {
    var l, c := s.legacy.value, s.current.value;
    var left := l - Moved(l, c).Keys;
    assert forall n :: n in left <==> n in l && Stays(c, n);
    if left == map[] {
      assert forall n <- l :: n !in left;
    } else {
      var n :| n in left;
    }
  }

  // ----- the directories in place -----

  class MetadataFolders {
    var legacy: Option<Directory>
    var current: Option<Directory>

    ghost function View(): Store
      reads this
    {
      Store(legacy, current)
    }

    constructor (legacy: Option<Directory>, current: Option<Directory>)
      ensures View() == Store(legacy, current)
    {
      this.legacy, this.current := legacy, current;
    }

    method MigrateMetadata(listing: seq<Name>)
      requires Listing(View(), listing)
      modifies this
      ensures View() == Outcome(old(View())) && Completed(old(View()), View())
    {
      MigrationIsConfluent(View(), listing);
      CompleteRunIsExact(View(), [], listing);
      if legacy.None? {
        return;
      }
      if current.None? {
        legacy, current := None, legacy;
        return;
      }
      for k := 0 to |listing|
        invariant legacy.Some? && current.Some?
        invariant Sweep(View(), listing[k..]) == Sweep(old(View()), listing)
      {
        var name := listing[k];
        assert listing[k..][1..] == listing[k + 1..];
        if name in legacy.value && !InFamily(name) && name !in current.value {
          legacy, current := Some(legacy.value - {name}), Some(current.value[name := legacy.value[name]]);
        }
      }
      if legacy.value == map[] {
        legacy := None;
      }
    }
  }
}
