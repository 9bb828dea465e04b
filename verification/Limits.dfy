/** What validation accepts, what its error says, and what it guarantees of the
    request (preconfs-client/src/filter.rs). */
module Limits {
  import opened Wrappers
  import opened Filters
  import opened Matching
  import P = Proto

  // ----- validation is exact -----

  predicate MemcmpOk(m: Memcmp, dataBytes: nat) {
    1 <= |m.bytes| <= MAX_MEMCMP_BYTES && m.offset + |m.bytes| <= dataBytes
  }

  predicate InstructionOk(f: InstructionFilter) {
    && |f.memcmp| <= MAX_MEMCMPS_PER_INSTRUCTION
    && (f.dataSize.Some? ==> f.dataSize.value <= MAX_INSTRUCTION_DATA_BYTES)
    && forall i :: 0 <= i < |f.memcmp| ==> MemcmpOk(f.memcmp[i], DataBytes(f))
  }

  predicate FilterOk(f: Filter, name: string) {
    && |name| <= MAX_FILTER_NAME_BYTES
    && |f.accountInclude| <= MAX_ACCOUNTS_PER_LIST
    && |f.accountExclude| <= MAX_ACCOUNTS_PER_LIST
    && |f.accountRequired| <= MAX_ACCOUNTS_PER_LIST
    && |f.signerInclude| <= MAX_ACCOUNTS_PER_LIST
    && |f.signerExclude| <= MAX_ACCOUNTS_PER_LIST
    && |f.signatures| <= MAX_SIGNATURES_PER_FILTER
    && (forall i :: 0 <= i < |f.instructions| ==> InstructionOk(f.instructions[i]))
    && (f.accountInclude != [] || f.accountRequired != [] || f.signerInclude != []
        || f.instructions != [] || f.signatures != [])
  }

  predicate SetOk(filters: NamedFilters) {
    1 <= |filters| <= MAX_FILTERS && InstructionCount(filters) <= MAX_INSTRUCTION_FILTERS
  }

  predicate WithinLimits(filters: NamedFilters) {
    SetOk(filters) && forall i :: 0 <= i < |filters| ==> FilterOk(filters[i].1, filters[i].0)
  }

  /** Groups of checks hold exactly when each group does; otherwise the first
      group that fails says why. */
  lemma {:induction false} FlatFirst(groups: seq<seq<Check>>) returns (i: nat)
    ensures i <= |groups| && forall k :: 0 <= k < i ==> First(groups[k]) == None
    ensures i < |groups| ==> First(groups[i]).Some? && First(Flat(groups)) == First(groups[i])
    ensures i == |groups| ==> First(Flat(groups)) == None
  {
    i := 0;
    while i < |groups| && First(groups[i]) == None
      invariant i <= |groups| && First(Flat(groups[..i])) == None
      invariant forall k :: 0 <= k < i ==> First(groups[k]) == None
    {
      FlatStep(groups, i);
      i := i + 1;
    }
    if i < |groups| {
      FlatStep(groups, i);
    } else {
      assert groups[..i] == groups;
    }
  }

  /** An instruction filter is refused for too many memcmps, else for its data
      size, else for its first bad memcmp: for its length, else for its reach. */
  lemma {:induction false} InstructionRefusal(f: InstructionFilter, name: string) returns (i: nat)
    ensures i <= |f.memcmp| && forall k :: 0 <= k < i ==> MemcmpOk(f.memcmp[k], DataBytes(f))
    ensures i < |f.memcmp| ==> !MemcmpOk(f.memcmp[i], DataBytes(f))
    ensures First(InstructionChecks(f, name)) ==
              if |f.memcmp| > 4 then Some(TooManyMemcmps(name))
              else if f.dataSize.Some? && f.dataSize.value > 4096 then Some(DataSizeTooLarge(name))
              else if i == |f.memcmp| then None
              else if f.memcmp[i].bytes == [] || |f.memcmp[i].bytes| > 128 then Some(MemcmpLength(name))
              else Some(MemcmpOutOfRange(name))
  {
    var tooMany := Check(|f.memcmp| > MAX_MEMCMPS_PER_INSTRUCTION, TooManyMemcmps(name));
    var tooLarge :=
      Check(f.dataSize.Some? && f.dataSize.value > MAX_INSTRUCTION_DATA_BYTES, DataSizeTooLarge(name));
    var groups := EachMemcmp(f, name);
    FirstOfTwo(tooMany, tooLarge);
    FirstConcat([tooMany, tooLarge], Flat(groups));
    forall k | 0 <= k < |f.memcmp|
      ensures First(groups[k]) == None <==> MemcmpOk(f.memcmp[k], DataBytes(f))
      ensures First(groups[k]).Some? ==>
                First(groups[k]).value == if f.memcmp[k].bytes == [] || |f.memcmp[k].bytes| > MAX_MEMCMP_BYTES
                                          then MemcmpLength(name) else MemcmpOutOfRange(name)
    {
      FirstOfTwo(groups[k][0], groups[k][1]);
    }
    i := FlatFirst(groups);
  }

  lemma {:induction false} InstructionOkIff(f: InstructionFilter, name: string)
    ensures First(InstructionChecks(f, name)) == None <==> InstructionOk(f)
  {
    hide First, InstructionChecks, DataBytes;
    var i := InstructionRefusal(f, name);
  }

  /** A filter is refused for its name, else for a list of accounts, else for its
      signatures, else for its first bad instruction filter, else for selecting
      nothing. */
  lemma {:induction false} FilterRefusal(f: Filter, name: string) returns (i: nat)
    ensures i <= |f.instructions| && forall k :: 0 <= k < i ==> InstructionOk(f.instructions[k])
    ensures i < |f.instructions| ==> !InstructionOk(f.instructions[i])
    ensures First(FilterChecks(f, name)) ==
              if |name| > 64 then Some(NameTooLong(name))
              else if |f.accountInclude| > 10000 || |f.accountExclude| > 10000 || |f.accountRequired| > 10000
                || |f.signerInclude| > 10000 || |f.signerExclude| > 10000 then Some(TooManyAccounts(name))
              else if |f.signatures| > 1000 then Some(TooManySignatures(name))
              else if i < |f.instructions| then First(InstructionChecks(f.instructions[i], name))
              else if f.accountInclude == [] && f.accountRequired == [] && f.signerInclude == []
                && f.instructions == [] && f.signatures == [] then Some(Empty(name))
              else None
  {
    hide InstructionOk, InstructionChecks;
    var checks, groups, last := FilterChecks(f, name), EachInstruction(f, name), Check(SelectsNothing(f), Empty(name));
    var head := checks[..3];
    FirstOfThree(head[0], head[1], head[2]);
    FirstOfTwo(head[1], head[2]);
    assert head == [head[0], head[1], head[2]];
    assert checks == (head + Flat(groups)) + [last];
    FirstConcat(head, Flat(groups));
    FirstConcat(head + Flat(groups), [last]);
    assert [last][1..] == [];
    forall k | 0 <= k < |f.instructions|
      ensures First(groups[k]) == None <==> InstructionOk(f.instructions[k])
    {
      InstructionOkIff(f.instructions[k], name);
    }
    i := FlatFirst(groups);
  }

  lemma {:induction false} FilterOkIff(f: Filter, name: string)
    ensures First(FilterChecks(f, name)) == None <==> FilterOk(f, name)
  {
    hide First, FilterChecks, InstructionOk, InstructionChecks;
    var i := FilterRefusal(f, name);
    if i < |f.instructions| {
      InstructionOkIff(f.instructions[i], name);
    }
  }

  /** A set is refused for its size, else for its instruction filters, else for
      its first bad filter, with the first limit that filter breaks and under
      its name. */
  lemma {:induction false} RefusedForFirst(filters: NamedFilters) returns (i: nat)
    ensures i <= |filters| && forall k :: 0 <= k < i ==> FilterOk(filters[k].1, filters[k].0)
    ensures i < |filters| ==> !FilterOk(filters[i].1, filters[i].0)
    ensures First(RequestChecks(filters)) ==
              if filters == [] then Some(NoFilters)
              else if |filters| > 64 then Some(TooManyFilters)
              else if InstructionCount(filters) > 32 then Some(TooManyInstructionFilters)
              else if i < |filters| then First(FilterChecks(filters[i].1, filters[i].0))
              else None
    ensures i < |filters| ==>
              var error := First(FilterChecks(filters[i].1, filters[i].0));
              error.Some? && NameOf(error.value) == Some(filters[i].0)
  {
    hide FilterOk, FilterChecks, First, Flat;
    RequestOrder(filters);
    forall k | 0 <= k < |filters|
      ensures First(EachFilter(filters)[k]) == None <==> FilterOk(filters[k].1, filters[k].0)
    {
      FilterOkIff(filters[k].1, filters[k].0);
    }
    i := FlatFirst(EachFilter(filters));
    if i < |filters| {
      FilterErrorNamesIt(filters[i].1, filters[i].0);
    }
  }

  /** A request is built exactly when every limit holds for the set and for
      every filter in it. */
  lemma {:induction false} AcceptedIff(filters: NamedFilters)
    ensures First(RequestChecks(filters)) == None <==> WithinLimits(filters)
  {
    hide FilterOk, FilterChecks, RequestChecks, First;
    var i := RefusedForFirst(filters);
  }

  function NameOf(error: FilterError): Option<string> {
    match error
    case NoFilters => None
    case TooManyFilters => None
    case TooManyInstructionFilters => None
    case NameTooLong(name) => Some(name)
    case TooManyAccounts(name) => Some(name)
    case TooManySignatures(name) => Some(name)
    case TooManyMemcmps(name) => Some(name)
    case MemcmpLength(name) => Some(name)
    case MemcmpOutOfRange(name) => Some(name)
    case DataSizeTooLarge(name) => Some(name)
    case Empty(name) => Some(name)
  }

  predicate AllNamed(checks: seq<Check>, name: string) {
    forall k :: 0 <= k < |checks| ==> NameOf(checks[k].error) == Some(name)
  }

  lemma {:induction false} FlatNamed(groups: seq<seq<Check>>, name: string)
    requires forall i :: 0 <= i < |groups| ==> AllNamed(groups[i], name)
    ensures AllNamed(Flat(groups), name)
  {
    if groups == [] {
    } else {
      FlatNamed(groups[..|groups| - 1], name);
      assert AllNamed(groups[|groups| - 1], name);
    }
  }

  lemma {:induction false} FilterErrorNamesIt(f: Filter, name: string)
    ensures First(FilterChecks(f, name)).Some? ==> NameOf(First(FilterChecks(f, name)).value) == Some(name)
  {
    forall i | 0 <= i < |f.instructions|
      ensures AllNamed(InstructionChecks(f.instructions[i], name), name)
    {
      FlatNamed(EachMemcmp(f.instructions[i], name), name);
    }
    FlatNamed(EachInstruction(f, name), name);
    var i := FirstIsFirst(FilterChecks(f, name));
  }

  // ----- limits of the request itself -----

  function InstructionsUnder(m: map<string, P.TransactionFilter>, names: seq<string>): nat
    requires forall i :: 0 <= i < |names| ==> names[i] in m
  {
    if names == [] then 0 else
    var n := |names| - 1;
    InstructionsUnder(m, names[..n]) + |m[names[n]].instructions|
  }

  predicate NoRepeat(names: seq<string>) {
    forall i, j :: 0 <= i < j < |names| ==> names[i] != names[j]
  }

  lemma {:induction false} UnderRemove(m: map<string, P.TransactionFilter>, names: seq<string>, p: nat)
    requires p < |names| && forall i :: 0 <= i < |names| ==> names[i] in m
    ensures InstructionsUnder(m, names)
            == InstructionsUnder(m, names[..p] + names[p + 1..]) + |m[names[p]].instructions|
  {
    var n := |names| - 1;
    var rest := names[..p] + names[p + 1..];
    if p == n {
      assert rest == names[..n];
    } else {
      UnderRemove(m, names[..n], p);
      assert rest[..|rest| - 1] == names[..n][..p] + names[..n][p + 1..];
    }
  }

  lemma {:induction false} UnderSame(
    m: map<string, P.TransactionFilter>, m': map<string, P.TransactionFilter>, names: seq<string>)
    requires forall i :: 0 <= i < |names| ==> names[i] in m && names[i] in m' && m[names[i]] == m'[names[i]]
    ensures InstructionsUnder(m, names) == InstructionsUnder(m', names)
  {
    if names == [] {
    } else {
      UnderSame(m, m', names[..|names| - 1]);
    }
  }

  lemma {:induction false} OthersThan(m: map<string, P.TransactionFilter>, names: seq<string>, p: nat)
    requires NoRepeat(names) && p < |names| && forall i :: 0 <= i < |names| ==> names[i] in m
    ensures var rest := names[..p] + names[p + 1..];
            NoRepeat(rest) && forall i :: 0 <= i < |rest| ==> rest[i] in m && rest[i] != names[p]
  {}

  lemma {:induction false} SameCount(text: Base58, f: Filter)
    ensures |LowerFilter(text, f).instructions| == |f.instructions|
  {}

  lemma {:induction false} NoNames(m: map<string, P.TransactionFilter>, names: seq<string>)
    requires forall i :: 0 <= i < |names| ==> names[i] in m
    ensures m == map[] ==> names == []
  {
    if names != [] {
      assert names[0] in m;
    }
  }

  /** Overwriting never raises the number of instruction filters. */
  lemma {:induction false} OverwritingKeepsCount(text: Base58, filters: NamedFilters, names: seq<string>)
    requires NoRepeat(names) && forall i :: 0 <= i < |names| ==> names[i] in Lowered(text, filters)
    ensures InstructionsUnder(Lowered(text, filters), names) <= InstructionCount(filters)
  {
    hide LowerFilter;
    if filters == [] {
      NoNames(Lowered(text, filters), names);
    } else {
      var n := |filters| - 1;
      var m, front := Lowered(text, filters), Lowered(text, filters[..n]);
      if p :| 0 <= p < |names| && names[p] == filters[n].0 {
        var rest := names[..p] + names[p + 1..];
        UnderRemove(m, names, p);
        SameCount(text, filters[n].1);
        OthersThan(m, names, p);
        UnderSame(m, front, rest);
        OverwritingKeepsCount(text, filters[..n], rest);
      } else {
        UnderSame(m, front, names);
        OverwritingKeepsCount(text, filters[..n], names);
      }
    }
  }

  /** A message within the limits, whoever built it. */
  predicate MessageOk(f: P.TransactionFilter, name: string) {
    && |name| <= MAX_FILTER_NAME_BYTES
    && |f.accountInclude| <= MAX_ACCOUNTS_PER_LIST
    && |f.accountExclude| <= MAX_ACCOUNTS_PER_LIST
    && |f.accountRequired| <= MAX_ACCOUNTS_PER_LIST
    && |f.signerInclude| <= MAX_ACCOUNTS_PER_LIST
    && |f.signerExclude| <= MAX_ACCOUNTS_PER_LIST
    && |f.signature| <= MAX_SIGNATURES_PER_FILTER
    && (forall i :: 0 <= i < |f.instructions| ==>
          && |f.instructions[i].memcmp| <= MAX_MEMCMPS_PER_INSTRUCTION
          && (f.instructions[i].dataSize.Some? ==> f.instructions[i].dataSize.value <= MAX_INSTRUCTION_DATA_BYTES)
          && forall k :: 0 <= k < |f.instructions[i].memcmp| ==>
               var m := f.instructions[i].memcmp[k];
               && 1 <= |m.bytes| <= MAX_MEMCMP_BYTES
               && m.offset + |m.bytes| <= match f.instructions[i].dataSize
                                          case Some(size) => size
                                          case None => MAX_INSTRUCTION_DATA_BYTES)
    && (f.accountInclude != [] || f.accountRequired != [] || f.signerInclude != []
        || f.instructions != [] || f.signature != [])
  }

  /** The request as the server gets it: within the number of filters, within
      the limits of each, and within the instruction filters of the stream
      however its names are listed. */
  ghost predicate RequestOk(transactions: map<string, P.TransactionFilter>) {
    && 1 <= |transactions| <= MAX_FILTERS
    && (forall name :: name in transactions ==> MessageOk(transactions[name], name))
    && forall names: seq<string> ::
         NoRepeat(names) && (forall i :: 0 <= i < |names| ==> names[i] in transactions)
         ==> InstructionsUnder(transactions, names) <= MAX_INSTRUCTION_FILTERS
  }

  lemma {:induction false} LoweredMessageOk(text: Base58, f: Filter, name: string)
    requires FilterOk(f, name)
    ensures MessageOk(LowerFilter(text, f), name)
  {}

  /** The limits hold of the request map too, repeated names or not. */
  lemma {:induction false} LimitsSurviveLowering(text: Base58, filters: NamedFilters)
    requires WithinLimits(filters)
    ensures RequestOk(Lowered(text, filters))
  {
    hide MessageOk, FilterOk, LowerFilter;
    var m := Lowered(text, filters);
    NoneOverwrittenIff(text, filters);
    LastWins(text, filters);
    assert filters[0].0 in m;
    forall name | name in m
      ensures MessageOk(m[name], name)
    {
      var i :| 0 <= i < |filters| && filters[i].0 == name && IsLast(filters, i);
      LoweredMessageOk(text, filters[i].1, name);
    }
    forall names: seq<string> | NoRepeat(names) && forall i :: 0 <= i < |names| ==> names[i] in m
      ensures InstructionsUnder(m, names) <= MAX_INSTRUCTION_FILTERS
    {
      OverwritingKeepsCount(text, filters, names);
    }
  }

  // ----- satisfiable instruction filters -----

  predicate Covers(m: Memcmp, p: nat) {
    m.offset <= p < m.offset + |m.bytes|
  }

  /** Wherever two memcmps overlap they want the same byte. */
  predicate Agree(memcmps: seq<Memcmp>) {
    forall i, j, p: nat :: 0 <= i < |memcmps| && 0 <= j < |memcmps|
      && 0 <= p < MAX_INSTRUCTION_DATA_BYTES && Covers(memcmps[i], p) && Covers(memcmps[j], p)
      ==> memcmps[i].bytes[p - memcmps[i].offset] == memcmps[j].bytes[p - memcmps[j].offset]
  }

  /** The byte the first covering memcmp wants, or zero. */
  function Wanted(memcmps: seq<Memcmp>, p: nat): byte {
    if memcmps == [] then 0
    else if Covers(memcmps[0], p) then memcmps[0].bytes[p - memcmps[0].offset]
    else Wanted(memcmps[1..], p)
  }

  lemma {:induction false} WantedIsCovering(memcmps: seq<Memcmp>, i: nat, p: nat) returns (j: nat)
    requires i < |memcmps| && Covers(memcmps[i], p)
    ensures j < |memcmps| && Covers(memcmps[j], p) && Wanted(memcmps, p) == memcmps[j].bytes[p - memcmps[j].offset]
  {
    if Covers(memcmps[0], p) {
      j := 0;
    } else {
      j := WantedIsCovering(memcmps[1..], i - 1, p);
      j := j + 1;
    }
  }

  /** An accepted instruction filter is matched by some instruction data a
      transaction can carry exactly when its memcmps agree on every overlap. */
  lemma {:induction false} SatisfiableIff(f: InstructionFilter)
    requires InstructionOk(f)
    ensures (exists data: seq<byte> :: |data| <= MAX_INSTRUCTION_DATA_BYTES && DataMatches(f, data))
            <==> Agree(f.memcmp)
  {
    if Agree(f.memcmp) {
      var data: seq<byte> := seq(DataBytes(f), p requires 0 <= p < DataBytes(f) => Wanted(f.memcmp, p));
      forall i | 0 <= i < |f.memcmp|
        ensures MemcmpMatches(f.memcmp[i], data)
      {
        WitnessMatches(f, data, i);
      }
      assert DataMatches(f, data);
    }
    forall data: seq<byte> | DataMatches(f, data)
      ensures Agree(f.memcmp)
    {
      MatchedAgree(f, data);
    }
  }

  lemma {:induction false} WitnessMatches(f: InstructionFilter, data: seq<byte>, i: nat)
    requires InstructionOk(f) && Agree(f.memcmp) && i < |f.memcmp|
    requires |data| == DataBytes(f) && forall p :: 0 <= p < |data| ==> data[p] == Wanted(f.memcmp, p)
    ensures MemcmpMatches(f.memcmp[i], data)
  {
    var m := f.memcmp[i];
    assert MemcmpOk(m, DataBytes(f));
    forall k | 0 <= k < |m.bytes|
      ensures data[m.offset + k] == m.bytes[k]
    {
      var p := m.offset + k;
      assert Covers(m, p);
      var j := WantedIsCovering(f.memcmp, i, p);
    }
  }

  lemma {:induction false} MatchedAgree(f: InstructionFilter, data: seq<byte>)
    requires DataMatches(f, data)
    ensures Agree(f.memcmp)
  {}

  /** An instruction filter refused as out of range or too large could never
      have matched. */
  lemma {:induction false} RefusedNeverMatches(f: InstructionFilter, name: string, data: seq<byte>)
    requires First(InstructionChecks(f, name)) in {Some(MemcmpOutOfRange(name)), Some(DataSizeTooLarge(name))}
    requires |data| <= MAX_INSTRUCTION_DATA_BYTES
    ensures !DataMatches(f, data)
  {
    hide First, InstructionChecks;
    var i := InstructionRefusal(f, name);
    if i < |f.memcmp| {
      assert !MemcmpMatches(f.memcmp[i], data) || (f.dataSize.Some? && |data| != f.dataSize.value);
    }
  }

  // ----- every filter selects -----

  /** The transaction shares nothing with the lists that select. */
  predicate SharesNothing(f: Filter, tx: Tx) {
    && !AnyOf(f.accountInclude, tx.keys) && !AnyOf(f.accountRequired, tx.keys)
    && !AnyOf(f.signerInclude, tx.signers) && tx.signature !in f.signatures
    && forall i, j :: 0 <= i < |f.instructions| && 0 <= j < |tx.instructions| ==>
         f.instructions[i].programId != tx.instructions[j].program
  }

  /** No accepted request selects the full feed: what shares nothing with any
      filter's selecting lists is delivered under no name. */
  lemma {:induction false} NoFullFeed(text: Base58, filters: NamedFilters, tx: Tx)
    requires Faithful(text) && WithinLimits(filters)
    requires forall i :: 0 <= i < |filters| ==> SharesNothing(filters[i].1, tx)
    ensures NamesMatched(text, Lowered(text, filters), tx) == {}
  {
    LoweringPreservesMeaning(text, filters, tx);
    forall i | 0 <= i < |filters|
      ensures !Matches(filters[i].1, tx)
    {
      SelectionNeeded(filters[i].1, filters[i].0, tx);
    }
  }

  lemma {:induction false} SelectionNeeded(f: Filter, name: string, tx: Tx)
    requires FilterOk(f, name) && SharesNothing(f, tx)
    ensures !Matches(f, tx)
  {
    if f.accountRequired != [] {
      assert f.accountRequired[0] !in tx.keys;
    }
  }

  lemma {:induction false} AnyAllConcat<A>(a: seq<A>, b: seq<A>, there: seq<A>)
    ensures AnyOf(a + b, there) <==> AnyOf(a, there) || AnyOf(b, there)
    ensures AllOf(a + b, there) <==> AllOf(a, there) && AllOf(b, there)
  {
    var all := a + b;
    if AnyOf(a, there) {
      var i :| 0 <= i < |a| && a[i] in there;
      assert all[i] in there;
    }
    if AnyOf(b, there) {
      var i :| 0 <= i < |b| && b[i] in there;
      assert all[|a| + i] in there;
    }
    if AllOf(all, there) {
      assert forall i :: 0 <= i < |a| ==> all[i] == a[i];
      assert forall i :: 0 <= i < |b| ==> all[|a| + i] == b[i];
    }
  }

  /** The exclusions, the requirements and a first outcome list cut exactly what
      they name out of what a filter matched before. */
  lemma {:induction false} NarrowingCuts(f: Filter, keys: seq<Pubkey>, results: seq<ExecutionResult>, tx: Tx)
    ensures Matches(f.ExcludeAccounts(keys), tx) <==> Matches(f, tx) && !AnyOf(keys, tx.keys)
    ensures Matches(f.ExcludeSigners(keys), tx) <==> Matches(f, tx) && !AnyOf(keys, tx.signers)
    ensures Matches(f.Require(keys), tx) <==> Matches(f, tx) && AllOf(keys, tx.keys)
    ensures f.executionResults == [] && results != [] ==>
              (Matches(f.WithExecutionResults(results), tx)
               <==> Matches(f, tx) && tx.result.Some? && Known(tx.result.value, results))
  {
    hide AnyOf, AllOf, InstructionsMatch;
    AnyAllConcat(f.accountExclude, keys, tx.keys);
    AnyAllConcat(f.signerExclude, keys, tx.signers);
    AnyAllConcat(f.accountRequired, keys, tx.keys);
    if f.executionResults == [] {
      assert f.executionResults + results == results;
    }
  }

  /** Calling a builder again adds to the first call. */
  lemma {:induction false} BuildersAppend(
    f: Filter, a: seq<Pubkey>, b: seq<Pubkey>, r: seq<ExecutionResult>, q: seq<ExecutionResult>)
    ensures f.Accounts(a).Accounts(b) == f.Accounts(a + b)
    ensures f.Require(a).Require(b) == f.Require(a + b)
    ensures f.ExcludeAccounts(a).ExcludeAccounts(b) == f.ExcludeAccounts(a + b)
    ensures f.ExcludeSigners(a).ExcludeSigners(b) == f.ExcludeSigners(a + b)
    ensures f.WithExecutionResults(r).WithExecutionResults(q) == f.WithExecutionResults(r + q)
  {
    assert (f.accountInclude + a) + b == f.accountInclude + (a + b);
    assert (f.accountRequired + a) + b == f.accountRequired + (a + b);
    assert (f.accountExclude + a) + b == f.accountExclude + (a + b);
    assert (f.signerExclude + a) + b == f.signerExclude + (a + b);
    assert (f.executionResults + r) + q == f.executionResults + (r + q);
  }

  /** Accounts or outcomes added to a list that is set widen it: the filter then
      matches what it matched before and what the addition alone would. A first
      list of accounts narrows. */
  lemma {:induction false} WideningAdds(f: Filter, keys: seq<Pubkey>, results: seq<ExecutionResult>, tx: Tx)
    requires keys != [] && results != []
    ensures Matches(f.Accounts(keys), tx) <==>
              if f.accountInclude == [] then Matches(f, tx) && AnyOf(keys, tx.keys)
              else Matches(f, tx) || Matches(f.(accountInclude := keys), tx)
    ensures f.executionResults != [] ==>
              (Matches(f.WithExecutionResults(results), tx)
               <==> Matches(f, tx) || Matches(f.(executionResults := results), tx))
  {
    hide AnyOf, AllOf, InstructionsMatch;
    AnyAllConcat(f.accountInclude, keys, tx.keys);
    if f.accountInclude == [] {
      assert f.accountInclude + keys == keys;
    }
  }

  /** With a repeated name the earlier filter is lost without an error: the set
      is accepted and its first filter describes the transaction, yet no name
      is echoed. */
  lemma {:induction false} RepeatedNameLosesFilter(text: Base58) returns (filters: NamedFilters, tx: Tx)
    requires Faithful(text)
    ensures First(RequestChecks(filters)) == None && |filters| == 2
    ensures Matches(filters[0].1, tx) && NamesMatched(text, Lowered(text, filters), tx) == {}
  {
    var k, other: Pubkey := seq(32, i => 0), seq(32, i => 1);
    assert k[0] != other[0];
    var f, g := NO_CONDITIONS.Accounts([k]), NO_CONDITIONS.Accounts([other]);
    filters := [("default", f), ("default", g)];
    tx := Tx([k], [], seq(64, i => 0), [], None);
    assert f.accountInclude == [k] && g.accountInclude == [other];
    assert !Matches(g, tx);
    assert Matches(f, tx) by { assert f.accountInclude[0] in tx.keys; }
    LoweringPreservesMeaning(text, filters, tx);
    AcceptedIff(filters);
    assert InstructionCount(filters[..1]) == InstructionCount(filters[..1][..0]);
  }
}
