/** Subscribe filters: the limits, the validation loops and the lowering to the
    request's messages (preconfs-client/src/filter.rs). Strings are their UTF-8
    bytes, one `char` per byte. */
module Filters {
  import opened Wrappers
  import opened Feeds
  import P = Proto

  const MAX_FILTERS: nat := 64
  const MAX_ACCOUNTS_PER_LIST: nat := 10000
  const MAX_SIGNATURES_PER_FILTER: nat := 1000
  const MAX_FILTER_NAME_BYTES: nat := 64
  const MAX_INSTRUCTION_FILTERS: nat := 32
  const MAX_MEMCMPS_PER_INSTRUCTION: nat := 4
  const MAX_MEMCMP_BYTES: nat := 128
  const MAX_INSTRUCTION_DATA_BYTES: nat := 4096

  datatype FilterError =
    | NoFilters
    | TooManyFilters
    | NameTooLong(name: string)
    | TooManyAccounts(name: string)
    | TooManySignatures(name: string)
    | TooManyInstructionFilters
    | TooManyMemcmps(name: string)
    | MemcmpLength(name: string)
    | MemcmpOutOfRange(name: string)
    | DataSizeTooLarge(name: string)
    | Empty(name: string)

  type Pubkey = k: seq<byte> | |k| == 32 witness seq(32, i => 0)
  type Signature = s: seq<byte> | |s| == 64 witness seq(64, i => 0)

  datatype ExecutionResult = Success | ExecutionFailure | FeesOnly

  datatype Memcmp = Memcmp(offset: u32, bytes: seq<byte>)

  datatype InstructionFilter = InstructionFilter(
    programId: Pubkey, memcmp: seq<Memcmp>, dataSize: Option<u32>)

  datatype Filter = Filter(
    accountInclude: seq<Pubkey>,
    accountExclude: seq<Pubkey>,
    accountRequired: seq<Pubkey>,
    signerInclude: seq<Pubkey>,
    signerExclude: seq<Pubkey>,
    instructions: seq<InstructionFilter>,
    signatures: seq<Signature>,
    executionResults: seq<ExecutionResult>)
  {
    function Accounts(accounts: seq<Pubkey>): Filter {
      this.(accountInclude := accountInclude + accounts)
    }

    function Require(accounts: seq<Pubkey>): Filter {
      this.(accountRequired := accountRequired + accounts)
    }

    function ExcludeAccounts(accounts: seq<Pubkey>): Filter {
      this.(accountExclude := accountExclude + accounts)
    }

    function ExcludeSigners(signers: seq<Pubkey>): Filter {
      this.(signerExclude := signerExclude + signers)
    }

    function WithExecutionResults(results: seq<ExecutionResult>): Filter {
      this.(executionResults := executionResults + results)
    }
  }

  const NO_CONDITIONS: Filter := Filter([], [], [], [], [], [], [], [])

  /** Filters in the order they were added; a name may occur again. */
  type NamedFilters = seq<(string, Filter)>

  // ----- the limits, as one flat list of checks -----

  datatype Check = Check(broken: bool, error: FilterError)

  /** The error of the first broken check. */
  function First(checks: seq<Check>): Option<FilterError> {
    if checks == [] then None
    else if checks[0].broken then Some(checks[0].error)
    else First(checks[1..])
  }

  function DataBytes(f: InstructionFilter): nat {
    match f.dataSize
    case Some(size) => size
    case None => MAX_INSTRUCTION_DATA_BYTES
  }

  function Mapped<A, B>(f: A -> B, s: seq<A>): (t: seq<B>)
    ensures |t| == |s| && forall i :: 0 <= i < |s| ==> t[i] == f(s[i])
  {
    seq(|s|, i requires 0 <= i < |s| => f(s[i]))
  }

  function Flat(groups: seq<seq<Check>>): seq<Check> {
    if groups == [] then [] else Flat(groups[..|groups| - 1]) + groups[|groups| - 1]
  }

  function MemcmpChecks(m: Memcmp, dataBytes: nat, name: string): seq<Check> {
    [Check(!(1 <= |m.bytes| <= MAX_MEMCMP_BYTES), MemcmpLength(name)),
     Check(m.offset + |m.bytes| > dataBytes, MemcmpOutOfRange(name))]
  }

  function EachMemcmp(f: InstructionFilter, name: string): seq<seq<Check>> {
    Mapped(m => MemcmpChecks(m, DataBytes(f), name), f.memcmp)
  }

  function InstructionChecks(f: InstructionFilter, name: string): seq<Check> {
    [Check(|f.memcmp| > MAX_MEMCMPS_PER_INSTRUCTION, TooManyMemcmps(name)),
     Check(f.dataSize.Some? && f.dataSize.value > MAX_INSTRUCTION_DATA_BYTES, DataSizeTooLarge(name))]
    + Flat(EachMemcmp(f, name))
  }

  function EachInstruction(f: Filter, name: string): seq<seq<Check>> {
    Mapped(instruction => InstructionChecks(instruction, name), f.instructions)
  }

  predicate SelectsNothing(f: Filter) {
    f.accountInclude == [] && f.accountRequired == [] && f.signerInclude == []
    && f.instructions == [] && f.signatures == []
  }

  predicate TooLong(accounts: seq<Pubkey>) {
    |accounts| > MAX_ACCOUNTS_PER_LIST
  }

  function FilterChecks(f: Filter, name: string): seq<Check> {
    [Check(|name| > MAX_FILTER_NAME_BYTES, NameTooLong(name)),
     Check(TooLong(f.accountInclude) || TooLong(f.accountExclude) || TooLong(f.accountRequired)
           || TooLong(f.signerInclude) || TooLong(f.signerExclude), TooManyAccounts(name)),
     Check(|f.signatures| > MAX_SIGNATURES_PER_FILTER, TooManySignatures(name))]
    + Flat(EachInstruction(f, name))
    + [Check(SelectsNothing(f), Empty(name))]
  }

  function EachFilter(filters: NamedFilters): seq<seq<Check>> {
    Mapped((named: (string, Filter)) => FilterChecks(named.1, named.0), filters)
  }

  function InstructionCount(filters: NamedFilters): nat {
    if filters == [] then 0 else
    var n := |filters| - 1;
    InstructionCount(filters[..n]) + |filters[n].1.instructions|
  }

  /** Every check of a request, in the order their errors take precedence. */
  function RequestChecks(filters: NamedFilters): seq<Check> {
    [Check(filters == [], NoFilters),
     Check(|filters| > MAX_FILTERS, TooManyFilters),
     Check(InstructionCount(filters) > MAX_INSTRUCTION_FILTERS, TooManyInstructionFilters)]
    + Flat(EachFilter(filters))
  }

  lemma {:induction false} FirstConcat(a: seq<Check>, b: seq<Check>)
    ensures First(a + b) == if First(a).Some? then First(a) else First(b)
  {
    if a == [] {
      assert a + b == b;
    } else {
      assert (a + b)[1..] == a[1..] + b;
      FirstConcat(a[1..], b);
    }
  }

  /** The first broken check: every check before it holds, and there is none
      exactly when all of them hold. */
  lemma {:induction false} FirstIsFirst(checks: seq<Check>) returns (i: nat)
    ensures i <= |checks| && forall k :: 0 <= k < i ==> !checks[k].broken
    ensures First(checks) == if i < |checks| then Some(checks[i].error) else None
    ensures i < |checks| ==> checks[i].broken
  {
    if checks == [] || checks[0].broken {
      i := 0;
    } else {
      i := FirstIsFirst(checks[1..]);
      forall k | 0 <= k < i + 1
        ensures !checks[k].broken
      {
        assert k > 0 ==> checks[k] == checks[1..][k - 1];
      }
      i := i + 1;
    }
  }

  // ----- base58 text of keys and signatures -----

  /** How keys and signatures print. */
  datatype Base58 = Base58(key: Pubkey -> string, signature: Signature -> string)

  ghost predicate Faithful(text: Base58) {
    && (forall a: Pubkey, b: Pubkey :: text.key(a) == text.key(b) ==> a == b)
    && (forall a: Signature, b: Signature :: text.signature(a) == text.signature(b) ==> a == b)
  }

  // ----- lowering -----

  function ResultNumber(r: ExecutionResult): int {
    match r
    case Success => 0
    case ExecutionFailure => 1
    case FeesOnly => 2
  }

  /** The receiver's reading of an outcome's number; the enum of the proto is open. */
  function OutcomeOf(number: int): Option<ExecutionResult> {
    if number == 0 then Some(Success)
    else if number == 1 then Some(ExecutionFailure)
    else if number == 2 then Some(FeesOnly)
    else None
  }

  function LowerMemcmp(m: Memcmp): P.Memcmp {
    P.Memcmp(m.offset, m.bytes)
  }

  function LowerInstruction(text: Base58, f: InstructionFilter): P.InstructionFilter {
    P.InstructionFilter(text.key(f.programId), Mapped(m => LowerMemcmp(m), f.memcmp), f.dataSize)
  }

  function LowerFilter(text: Base58, f: Filter): P.TransactionFilter {
    P.TransactionFilter(
      Mapped(text.key, f.accountInclude),
      Mapped(text.key, f.accountExclude),
      Mapped(text.key, f.accountRequired),
      Mapped(text.signature, f.signatures),
      Mapped(r => ResultNumber(r), f.executionResults),
      Mapped(text.key, f.signerInclude),
      Mapped(text.key, f.signerExclude),
      Mapped(i => LowerInstruction(text, i), f.instructions))
  }

  /** Inserting the filters in order: a repeated name is overwritten. */
  function Lowered(text: Base58, filters: NamedFilters): map<string, P.TransactionFilter> {
    if filters == [] then map[] else
    var n := |filters| - 1;
    Lowered(text, filters[..n])[filters[n].0 := LowerFilter(text, filters[n].1)]
  }

  // ----- the methods -----

  function Outcome(broken: Option<FilterError>): Result<(), FilterError> {
    match broken
    case None => Ok(())
    case Some(error) => Err(error)
  }

  /** Going through the groups in turn, the first group with a broken check
      decides all of them. */
  lemma {:induction false} FlatStep(groups: seq<seq<Check>>, i: nat)
    requires i < |groups| && First(Flat(groups[..i])) == None
    ensures First(Flat(groups[..i + 1])) == First(groups[i])
    ensures First(groups[i]).Some? ==> First(Flat(groups)) == First(groups[i])
  {
    assert groups[..i + 1][..i] == groups[..i];
    FirstConcat(Flat(groups[..i]), groups[i]);
    if First(groups[i]).Some? {
      FailureStays(groups, i + 1);
    }
  }

  lemma {:induction false} FailureStays(groups: seq<seq<Check>>, i: nat)
    requires i <= |groups| && First(Flat(groups[..i])).Some?
    ensures First(Flat(groups)) == First(Flat(groups[..i]))
    decreases |groups| - i
  {
    if i == |groups| {
      assert groups[..i] == groups;
    } else {
      assert groups[..i + 1][..i] == groups[..i];
      FirstConcat(Flat(groups[..i]), groups[i]);
      FailureStays(groups, i + 1);
    }
  }

  lemma {:induction false} FirstOfTwo(a: Check, b: Check)
    ensures First([a, b]) == if a.broken then Some(a.error) else if b.broken then Some(b.error) else None
  {
    assert [a, b][1..] == [b] && [b][1..] == [];
    assert First([b]) == if b.broken then Some(b.error) else None;
  }

  lemma {:induction false} FirstOfThree(a: Check, b: Check, c: Check)
    ensures First([a, b, c]) == if a.broken then Some(a.error) else First([b, c])
  {}

  /** `checked_add` on usize. */
  function CheckedAdd(a: nat, b: nat, usizeMax: nat): Option<nat> {
    if a + b <= usizeMax then Some(a + b) else None
  }

  /** Whatever the address width, from 32 bits on, the checked arithmetic on
      usize decides as the checks over the unbounded integers do. */
  method ValidateInstruction(f: InstructionFilter, name: string, usizeMax: nat) returns (r: Result<(), FilterError>)
    requires usizeMax >= U32_MAX
    ensures r == Outcome(First(InstructionChecks(f, name)))
  {
    ghost var tooMany := Check(|f.memcmp| > MAX_MEMCMPS_PER_INSTRUCTION, TooManyMemcmps(name));
    ghost var tooLarge :=
      Check(f.dataSize.Some? && f.dataSize.value > MAX_INSTRUCTION_DATA_BYTES, DataSizeTooLarge(name));
    ghost var groups := EachMemcmp(f, name);
    FirstOfTwo(tooMany, tooLarge);
    FirstConcat([tooMany, tooLarge], Flat(groups));
    if |f.memcmp| > MAX_MEMCMPS_PER_INSTRUCTION {
      return Err(TooManyMemcmps(name));
    }
    var dataBytes;
    match f.dataSize {
      case Some(size) =>
        if size > MAX_INSTRUCTION_DATA_BYTES {
          return Err(DataSizeTooLarge(name));
        }
        dataBytes := size;
      case None => dataBytes := MAX_INSTRUCTION_DATA_BYTES;
    }
    for i := 0 to |f.memcmp|
      invariant First(Flat(groups[..i])) == None
    {
      var m := f.memcmp[i];
      FlatStep(groups, i);
      FirstOfTwo(MemcmpChecks(m, dataBytes, name)[0], MemcmpChecks(m, dataBytes, name)[1]);
      if m.bytes == [] || |m.bytes| > MAX_MEMCMP_BYTES {
        return Err(MemcmpLength(name));
      }
      var end := CheckedAdd(m.offset, |m.bytes|, usizeMax);
      if end.None? || end.value > dataBytes {
        return Err(MemcmpOutOfRange(name));
      }
    }
    assert groups[..|groups|] == groups;
    return Ok(());
  }

  method ValidateFilter(f: Filter, name: string, usizeMax: nat) returns (r: Result<(), FilterError>)
    requires usizeMax >= U32_MAX
    ensures r == Outcome(First(FilterChecks(f, name)))
  {
    ghost var head, groups := FilterChecks(f, name)[..3], EachInstruction(f, name);
    ghost var last := Check(SelectsNothing(f), Empty(name));
    FirstOfThree(head[0], head[1], head[2]);
    FirstOfTwo(head[1], head[2]);
    assert head == [head[0], head[1], head[2]];
    assert FilterChecks(f, name) == (head + Flat(groups)) + [last];
    FirstConcat(head, Flat(groups));
    FirstConcat(head + Flat(groups), [last]);
    assert [last][1..] == [];
    if |name| > MAX_FILTER_NAME_BYTES {
      return Err(NameTooLong(name));
    }
    var lists := [f.accountInclude, f.accountExclude, f.accountRequired, f.signerInclude, f.signerExclude];
    if exists i :: 0 <= i < |lists| && |lists[i]| > MAX_ACCOUNTS_PER_LIST {
      return Err(TooManyAccounts(name));
    }
    assert !TooLong(lists[0]) && !TooLong(lists[1]) && !TooLong(lists[2]) && !TooLong(lists[3]) && !TooLong(lists[4]);
    if |f.signatures| > MAX_SIGNATURES_PER_FILTER {
      return Err(TooManySignatures(name));
    }
    for i := 0 to |f.instructions|
      invariant First(Flat(groups[..i])) == None
    {
      FlatStep(groups, i);
      var valid := ValidateInstruction(f.instructions[i], name, usizeMax);
      if valid.Err? {
        return valid;
      }
    }
    assert groups[..|groups|] == groups;
    if SelectsNothing(f) {
      return Err(Empty(name));
    }
    return Ok(());
  }

  lemma {:induction false} RequestOrder(filters: NamedFilters)
    ensures First(RequestChecks(filters)) ==
              if filters == [] then Some(NoFilters)
              else if |filters| > MAX_FILTERS then Some(TooManyFilters)
              else if InstructionCount(filters) > MAX_INSTRUCTION_FILTERS then Some(TooManyInstructionFilters)
              else First(Flat(EachFilter(filters)))
    ensures |EachFilter(filters)| == |filters|
    ensures forall i :: 0 <= i < |filters| ==> EachFilter(filters)[i] == FilterChecks(filters[i].1, filters[i].0)
    ensures First(Flat([])) == None
  {
    var head := RequestChecks(filters)[..3];
    FirstOfThree(head[0], head[1], head[2]);
    FirstOfTwo(head[1], head[2]);
    assert head == [head[0], head[1], head[2]];
    assert RequestChecks(filters) == head + Flat(EachFilter(filters));
    FirstConcat(head, Flat(EachFilter(filters)));
  }

  lemma {:induction false} CountSnoc(filters: NamedFilters, i: nat)
    requires i < |filters|
    ensures InstructionCount(filters[..i + 1]) == InstructionCount(filters[..i]) + |filters[i].1.instructions|
    ensures InstructionCount([]) == 0
  {
    assert filters[..i + 1][..i] == filters[..i];
  }

  lemma {:induction false} LoweredSnoc(text: Base58, filters: NamedFilters, i: nat)
    requires i < |filters|
    ensures Lowered(text, filters[..i + 1])
            == Lowered(text, filters[..i])[filters[i].0 := LowerFilter(text, filters[i].1)]
  {
    assert filters[..i + 1][..i] == filters[..i];
  }

  lemma {:induction false} LoweredNothing(text: Base58)
    ensures Lowered(text, []) == map[]
  {}

  /** Validates and builds the request: either the first broken check of the
      set, or the map of the lowered filters with the region's number. */
  method IntoRequest(filters: NamedFilters, region: Region, text: Base58, usizeMax: nat)
    returns (r: Result<P.SubscribeRequest, FilterError>)
    requires usizeMax >= U32_MAX
    ensures r == match First(RequestChecks(filters))
                 case Some(error) => Err(error)
                 case None => Ok(P.SubscribeRequest(Lowered(text, filters), Some(IntoProto(region))))
  {
    hide First, FilterChecks, LowerFilter, RequestChecks, Lowered, InstructionCount, Flat, EachFilter;
    ghost var groups := EachFilter(filters);
    RequestOrder(filters);
    if filters == [] {
      return Err(NoFilters);
    }
    if |filters| > MAX_FILTERS {
      return Err(TooManyFilters);
    }
    var instructions := 0;
    CountSnoc(filters, 0);
    assert filters[..0] == [] && groups[..0] == [];
    for i := 0 to |filters|
      invariant instructions == InstructionCount(filters[..i])
    {
      CountSnoc(filters, i);
      instructions := instructions + |filters[i].1.instructions|;
    }
    assert filters[..|filters|] == filters;
    if instructions > MAX_INSTRUCTION_FILTERS {
      return Err(TooManyInstructionFilters);
    }
    var transactions: map<string, P.TransactionFilter> := map[];
    assert Lowered(text, []) == map[] by { LoweredNothing(text); }
    for i := 0 to |filters|
      invariant First(Flat(groups[..i])) == None
      invariant transactions == Lowered(text, filters[..i])
    {
      var (name, filter) := filters[i];
      FlatStep(groups, i);
      LoweredSnoc(text, filters, i);
      var valid := ValidateFilter(filter, name, usizeMax);
      if valid.Err? {
        return Err(valid.error);
      }
      transactions := transactions[name := LowerFilter(text, filter)];
    }
    assert groups[..|groups|] == groups;
    return Ok(P.SubscribeRequest(transactions, Some(IntoProto(region))));
  }
}
