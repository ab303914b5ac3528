/** The seeding loop over the persistent store: the same ledgers, as long as no record repeats an identifier. */
module ReconciliationTables {
  import opened Wrappers
  import opened Entities
  import opened MemoryModel
  import opened TableModel
  import opened StoreSimulation
  import opened Reconciliation
  import Seqs

  // ---- one row over the tables ----

  /** The first identifier that a lookup in the tables finds. */
  ghost function FindExistingRow(t: Tables, ks: seq<Identifier>): (r: Option<Identifier>)
    ensures r.Some? ==> r.value in ks && LookupRow(t, r.value).Some?
  {
    if ks == [] then None
    else if LookupRow(t, ks[0]).Some? then Some(ks[0])
    else
      assert ks == [ks[0]] + ks[1..];
      FindExistingRow(t, ks[1..])
  }

  ghost function RowCandidate(t: Tables, row: Row): Issuer {
    var owner := FindExistingRow(t, row.identifiers);
    Issuer(if owner.Some? then LookupRow(t, owner.value).value.id else row.minted, None, None, row.displayName,
           row.record)
  }

  ghost predicate RenamedRow(t: Tables, row: Row) {
    var owner := FindExistingRow(t, row.identifiers);
    && owner.Some?
    && var id := LookupRow(t, owner.value).value.id;
       GetIssuerRow(t, id).Some? && GetIssuerRow(t, id).value.displayName != row.displayName
  }

  ghost predicate SettledRow(t: Tables, row: Row) {
    var candidate := RowCandidate(t, row);
    var existing := GetIssuerRow(t, candidate.id);
    existing.Some? && Equivalent(existing.value, candidate)
  }

  /** One attempt: a conflict is an outcome, any other error of the store escapes the loop. */
  ghost function TryUpsertRow(t: Tables, row: Row, dryRun: bool): Result<(Tables, Outcome), StoreError> {
    var candidate := RowCandidate(t, row);
    if RenamedRow(t, row) then
      var key := FindExistingRow(t, row.identifiers).value;
      var id := LookupRow(t, key).value.id;
      Ok((t, Conflict(ConflictNote(key, id, id))))
    else if SettledRow(t, row) then Ok((t, NoOp))
    else if dryRun then Ok((t, Planned))
    else
      match UpsertResult(t, candidate)
      case (t', Ok(_)) => Ok((t', Outcome.Upserted))
      case (_, Err(IdentifierConflict(kind, value, existing, proposed))) =>
        Ok((t, Conflict(ConflictNote(Identifier(kind, value), existing, proposed))))
      case (_, Err(error)) => Err(error)
  }

  ghost function AfterTableRow(t: Tables, l: Ledger, row: Row, dryRun: bool): Result<(Tables, Ledger), StoreError> {
    if row.identifiers == [] then Ok((t, l.(skipped := l.skipped + 1)))
    else
      match TryUpsertRow(t, row, dryRun)
      case Ok((t', outcome)) => Ok((t', ApplyOutcome(l, outcome, row.provenance)))
      case Err(error) => Err(error)
  }

  ghost function AfterTableRows(t: Tables, l: Ledger, rows: seq<Row>, dryRun: bool)
    : Result<(Tables, Ledger), StoreError>
  {
    if rows == [] then Ok((t, l))
    else
      var n := |rows| - 1;
      match AfterTableRows(t, l, rows[..n], dryRun)
      case Ok((t', l')) => AfterTableRow(t', l', rows[n], dryRun)
      case Err(error) => Err(error)
  }

  // ---- agreement ----

  lemma LookupAgrees(m: Memory, t: Tables, k: Identifier)
    requires Represents(m, t)
    ensures LookupRow(t, k).Some? <==> k in m.identifiers
    ensures k in m.identifiers ==> LookupRow(t, k).value.id == m.identifiers[k] && m.identifiers[k] in m.issuers
  {
    if k in m.identifiers {
      assert Owns(m, m.identifiers[k], k);
      SameRecord(m, t, m.identifiers[k]);
    }
  }

  lemma {:induction false} FindAgrees(m: Memory, t: Tables, ks: seq<Identifier>)
    requires Represents(m, t)
    ensures FindExistingRow(t, ks) == FindExistingOwner(m, ks)
  {
    if ks != [] {
      LookupAgrees(m, t, ks[0]);
      FindAgrees(m, t, ks[1..]);
    }
  }

  lemma GetAgrees(m: Memory, t: Tables, id: IssuerId)
    requires Represents(m, t)
    ensures GetIssuerRow(t, id).Some? <==> id in m.issuers
    ensures id in m.issuers ==> SameIssuer(m.issuers[id], GetIssuerRow(t, id).value)
  {
    if id in m.issuers {
      SameRecord(m, t, id);
    }
  }

  /** The loop sees the same owner, candidate and verdicts in both stores. */
  lemma VerdictsAgree(m: Memory, t: Tables, row: Row)
    requires Represents(m, t)
    ensures FindExistingRow(t, row.identifiers) == FindExistingOwner(m, row.identifiers)
    ensures RowCandidate(t, row) == Candidate(m, row)
    ensures RenamedRow(t, row) <==> Renamed(m, row)
    ensures SettledRow(t, row) <==> Settled(m, row)
  {
    FindAgrees(m, t, row.identifiers);
    var owner := FindExistingOwner(m, row.identifiers);
    if owner.Some? {
      LookupAgrees(m, t, owner.value);
      GetAgrees(m, t, m.identifiers[owner.value]);
    }
    GetAgrees(m, t, Candidate(m, row).id);
  }

  /** A row whose record would be upserted although it repeats an identifier: the one case in which a run escapes. */
  ghost predicate Escapes(m: Memory, row: Row, dryRun: bool) {
    row.identifiers != [] && TryUpsertResult(m, row, dryRun).1.Upserted? && !NoDuplicates(row.record)
  }

  lemma UpsertAgrees(m: Memory, t: Tables, issuer: Issuer)
    requires Represents(m, t)
    ensures var conflict := FirstConflict(m.identifiers, issuer.identifiers, issuer.id);
            && (conflict.Some? ==> UpsertResult(t, issuer) == (t, Err(conflict.value)))
            && (conflict.None? && !NoDuplicates(issuer.identifiers) ==>
                  UpsertResult(t, issuer) == (t, Err(ConstraintViolation)))
            && (conflict.None? && NoDuplicates(issuer.identifiers) ==>
                  UpsertResult(t, issuer) == (UpsertedTables(t, issuer), Ok(issuer))
                  && Represents(MemoryModel.Upserted(m, issuer), UpsertedTables(t, issuer)))
  {
    if FirstConflict(m.identifiers, issuer.identifiers, issuer.id).None? {
      SimulateUpsert(m, t, issuer);
    }
  }

  /** One attempt on both stores: the same outcome, unless the tables refuse what the memory takes in. */
  lemma AttemptsAgree(m: Memory, t: Tables, row: Row, dryRun: bool)
    requires Represents(m, t)
    ensures var (r, (m', outcome)) := (TryUpsertRow(t, row, dryRun), TryUpsertResult(m, row, dryRun));
            if outcome.Upserted? && !NoDuplicates(row.record) then r == Err(ConstraintViolation)
            else r.Ok? && r.value.1 == outcome && Represents(m', r.value.0)
  {
    VerdictsAgree(m, t, row);
    UpsertAgrees(m, t, Candidate(m, row));
  }

  /** One row over both stores: the same ledger and still the same contents, exactly unless the tables refuse it. */
  lemma RowsAgree(m: Memory, t: Tables, l: Ledger, row: Row, dryRun: bool)
    requires Represents(m, t)
    ensures var (r, (m', l')) := (AfterTableRow(t, l, row, dryRun), AfterRow(m, l, row, dryRun));
            if Escapes(m, row, dryRun) then r == Err(ConstraintViolation)
            else r.Ok? && r.value.1 == l' && Represents(m', r.value.0)
  {
    if row.identifiers != [] {
      AttemptsAgree(m, t, row, dryRun);
    }
  }

  /** Some row escapes when its turn comes. */
  ghost predicate RunEscapes(m: Memory, rows: seq<Row>, dryRun: bool) {
    && rows != []
    && var n := |rows| - 1;
       RunEscapes(m, rows[..n], dryRun) || Escapes(AfterRows(m, EmptyLedger, rows[..n], dryRun).0, rows[n], dryRun)
  }

  /**
   * Seeding either store from the same rows gives the same ledger and leaves the tables representing the memory,
   * exactly unless a row is upserted with a record that repeats an identifier: that error ends the run.
   */
  lemma {:induction false} SeedingAgrees(m: Memory, t: Tables, rows: seq<Row>, dryRun: bool)
    requires Represents(m, t)
    ensures var (r, (m', l')) := (AfterTableRows(t, EmptyLedger, rows, dryRun),
                                  AfterRows(m, EmptyLedger, rows, dryRun));
            if RunEscapes(m, rows, dryRun) then r == Err(ConstraintViolation)
            else r.Ok? && r.value.1 == l' && Represents(m', r.value.0)
  {
    if rows != [] {
      var n := |rows| - 1;
      SeedingAgrees(m, t, rows[..n], dryRun);
      if !RunEscapes(m, rows[..n], dryRun) {
        var (m', l') := AfterRows(m, EmptyLedger, rows[..n], dryRun);
        RowsAgree(m', AfterTableRows(t, EmptyLedger, rows[..n], dryRun).value.0, l', rows[n], dryRun);
      }
    }
  }

  /** The rows the loops build name each identifier once, so their runs never escape. */
  lemma {:induction false} DistinctRowsNeverEscape(m: Memory, rows: seq<Row>, dryRun: bool)
    requires forall row <- rows :: NoDuplicates(row.record)
    ensures !RunEscapes(m, rows, dryRun)
  {
    if rows != [] {
      Seqs.SplitLast(rows);
      DistinctRowsNeverEscape(m, rows[..|rows| - 1], dryRun);
    }
  }
}
