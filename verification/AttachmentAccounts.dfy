/** What a hold, its charge and its release do to the two counters, as laws between the calls. */
module AttachmentAccounts {
  import opened Sums
  import opened AttachmentTables

  /** Both counter rows exist and nothing in them is negative. */
  predicate Opened(t: Tables, path: OwnerPath) {
    && path in t.owners && t.global.Some?
    && t.owners[path].used >= 0 && t.owners[path].reserved >= 0
    && t.global.value.used >= 0 && t.global.value.reserved >= 0
  }

  /** Both rows with so many more bytes used, and no other row changed. */
  function Charged(t: Tables, path: OwnerPath, bytes: int): Tables
    requires Opened(t, path)
  {
    var owner, global := t.owners[path], t.global.value;
    t.(owners := t.owners[path := owner.(used := owner.used + bytes)],
       global := Some(global.(used := global.used + bytes)))
  }

  /** A hold that ends unwritten leaves the counters as they were; one that is written leaves its bytes used on both
      levels; and giving these back undoes the write. */
  lemma HoldsBalance(t: Tables, path: OwnerPath, bytes: int)
    requires Opened(t, path)
    ensures MoveReserved(Reserve(t, path, bytes, true), path, bytes, false) == t
    ensures MoveReserved(Reserve(t, path, bytes, true), path, bytes, true) == Charged(t, path, Clamp(bytes))
    ensures bytes >= 0 ==> ReleaseUsed(Charged(t, path, bytes), path, bytes) == t
  {
    assert t.owners[path := t.owners[path]] == t.owners;
    assert bytes >= 0 ==> Charged(t, path, bytes).owners[path := t.owners[path]] == t.owners;
  }

  /** While it lasts, a hold adds its bytes to what both levels have reserved, creating the rows it misses. */
  lemma HoldsCount(t: Tables, path: OwnerPath, bytes: int, globally: bool)
    requires bytes > 0
    ensures var t' := Reserve(t, path, bytes, globally);
            && path in t'.owners && (globally ==> t'.global.Some?)
            && (path in t.owners ==> t'.owners[path] == Counter(t.owners[path].used, t.owners[path].reserved + bytes))
            && (path !in t.owners ==> t'.owners[path] == Counter(0, bytes))
            && (globally && t.global.Some? ==>
                  t'.global == Some(Counter(t.global.value.used, t.global.value.reserved + bytes)))
            && (globally && t.global.None? ==> t'.global == Some(Counter(0, bytes)))
            && (!globally ==> t'.global == t.global)
            && t' == t.(owners := t.owners[path := t'.owners[path]], global := t'.global)
  {
  }

  /** A hold of nothing creates no row. */
  lemma NothingToHold(t: Tables, path: OwnerPath, bytes: int, globally: bool)
    requires bytes <= 0
    ensures Reserve(t, path, bytes, globally) == t
  {
  }

  /** A hold is admitted exactly when, with it, no level that has a limit exceeds that limit; a negative limit counts as
      none left. */
  lemma AdmittedExactly(t: Tables, path: OwnerPath, maximum: int, bytes: int, maximumGlobal: Option<int>)
    requires bytes > 0
    ensures var t' := Reserve(t, path, bytes, maximumGlobal.Some?);
            HasLimitedRoom(t, path, maximum, bytes, maximumGlobal)
            <==> && t'.owners[path].used + t'.owners[path].reserved <= (if maximum > 0 then maximum else 0)
                 && (maximumGlobal.Some? ==>
                       t'.global.value.used + t'.global.value.reserved
                       <= if maximumGlobal.value > 0 then maximumGlobal.value else 0)
  {
  }

  /** Releases of more than is reserved, or of more than is used, stop at zero on each level by itself. */
  lemma ReleasesStopAtZero(t: Tables, path: OwnerPath, bytes: int)
    requires bytes > 0 && path in t.owners && t.global.Some?
    ensures var owner, global := t.owners[path], t.global.value;
            && (owner.reserved <= bytes ==>
                  MoveReserved(t, path, bytes, false).owners[path] == owner.(reserved := 0))
            && (global.reserved <= bytes ==>
                  MoveReserved(t, path, bytes, false).global == Some(global.(reserved := 0)))
            && (owner.used <= bytes ==> ReleaseUsed(t, path, bytes).owners[path] == owner.(used := 0))
            && (global.used <= bytes ==> ReleaseUsed(t, path, bytes).global == Some(global.(used := 0)))
  {
  }

  /** Nothing is released for an owner without a row, and neither is a negative amount. */
  lemma NothingToRelease(t: Tables, path: OwnerPath, bytes: int, toUsed: bool)
    requires bytes <= 0 || path !in t.owners
    ensures MoveReserved(t, path, bytes, toUsed) == t && ReleaseUsed(t, path, bytes) == t
  {
  }

  /** The first use of a scope counts what the scan found and reserves nothing; later uses leave the rows alone. */
  lemma FirstUseCounts(t: Tables, path: OwnerPath, scannedOwner: int, globally: bool, scannedAll: int)
    requires scannedOwner >= 0 && scannedAll >= 0
    ensures var t' := Initialized(t, path, scannedOwner, globally, scannedAll);
            && t' == t.(owners := if path in t.owners then t.owners else t.owners[path := Counter(scannedOwner, 0)],
                        global := if t.global.Some? || !globally then t.global else Some(Counter(scannedAll, 0)))
  {
  }

  /** A write held without a global limit still settles on the global row: it takes from that row's reserved bytes what
      it never added there, so it leaves the row as a limited write does exactly when nothing is reserved on it. */
  lemma UnlimitedWritesDrain(t: Tables, path: OwnerPath, bytes: int)
    requires Opened(t, path) && bytes > 0
    ensures MoveReserved(Reserve(t, path, bytes, false), path, bytes, true) == Charged(t, path, bytes)
      <==> t.global.value.reserved == 0
  {
    assert t.owners[path := t.owners[path]] == t.owners;
  }
}
