/** What filters match, on the client's side and on the server's, and what
    validation and lowering keep of it (preconfs-client/src/filter.rs,
    preconfs-proto/proto/preconfs.proto). */
module Matching {
  import opened Wrappers
  import opened Filters
  import P = Proto

  datatype Instruction = Instruction(program: Pubkey, data: seq<byte>)

  /** What the conditions look at: the static account keys, the signers among
      them, the first signature, the top-level instructions, and the outcome's
      number as the update carries it. */
  datatype Tx = Tx(
    keys: seq<Pubkey>,
    signers: seq<Pubkey>,
    signature: Signature,
    instructions: seq<Instruction>,
    result: Option<int>)

  predicate AnyOf<A(==)>(wanted: seq<A>, there: seq<A>) {
    exists i :: 0 <= i < |wanted| && wanted[i] in there
  }

  predicate AllOf<A(==)>(wanted: seq<A>, there: seq<A>) {
    forall i :: 0 <= i < |wanted| ==> wanted[i] in there
  }

  // ----- the client's filters -----

  predicate MemcmpMatches(m: Memcmp, data: seq<byte>) {
    m.offset + |m.bytes| <= |data| && data[m.offset..m.offset + |m.bytes|] == m.bytes
  }

  predicate DataMatches(f: InstructionFilter, data: seq<byte>) {
    && (f.dataSize.Some? ==> |data| == f.dataSize.value)
    && forall i :: 0 <= i < |f.memcmp| ==> MemcmpMatches(f.memcmp[i], data)
  }

  predicate InstructionMatches(f: InstructionFilter, instruction: Instruction) {
    f.programId == instruction.program && DataMatches(f, instruction.data)
  }

  predicate InstructionsMatch(fs: seq<InstructionFilter>, instructions: seq<Instruction>) {
    exists i, j :: 0 <= i < |fs| && 0 <= j < |instructions| && InstructionMatches(fs[i], instructions[j])
  }

  /** The number stands for one of the wanted outcomes. */
  predicate Known(number: int, wanted: seq<ExecutionResult>) {
    OutcomeOf(number).Some? && OutcomeOf(number).value in wanted
  }

  /** Every condition that is set holds; an empty list is not set. */
  predicate Matches(f: Filter, tx: Tx) {
    && (f.accountInclude == [] || AnyOf(f.accountInclude, tx.keys))
    && !AnyOf(f.accountExclude, tx.keys)
    && AllOf(f.accountRequired, tx.keys)
    && (f.signerInclude == [] || AnyOf(f.signerInclude, tx.signers))
    && !AnyOf(f.signerExclude, tx.signers)
    && (f.instructions == [] || InstructionsMatch(f.instructions, tx.instructions))
    && (f.signatures == [] || tx.signature in f.signatures)
    && (f.executionResults == [] || (tx.result.Some? && Known(tx.result.value, f.executionResults)))
  }

  // ----- the server's request -----

  predicate PMemcmpMatches(m: P.Memcmp, data: seq<byte>) {
    m.offset + |m.bytes| <= |data| && data[m.offset..m.offset + |m.bytes|] == m.bytes
  }

  predicate PInstructionMatches(text: Base58, f: P.InstructionFilter, instruction: Instruction) {
    && f.programId == text.key(instruction.program)
    && (f.dataSize.Some? ==> |instruction.data| == f.dataSize.value)
    && forall i :: 0 <= i < |f.memcmp| ==> PMemcmpMatches(f.memcmp[i], instruction.data)
  }

  predicate PInstructionsMatch(text: Base58, fs: seq<P.InstructionFilter>, instructions: seq<Instruction>) {
    exists i, j :: 0 <= i < |fs| && 0 <= j < |instructions| && PInstructionMatches(text, fs[i], instructions[j])
  }

  /** The server compares the text of the request with the text of the keys. */
  predicate PMatches(text: Base58, f: P.TransactionFilter, tx: Tx) {
    var keys, signers := Mapped(text.key, tx.keys), Mapped(text.key, tx.signers);
    && (f.accountInclude == [] || AnyOf(f.accountInclude, keys))
    && !AnyOf(f.accountExclude, keys)
    && AllOf(f.accountRequired, keys)
    && (f.signerInclude == [] || AnyOf(f.signerInclude, signers))
    && !AnyOf(f.signerExclude, signers)
    && (f.instructions == [] || PInstructionsMatch(text, f.instructions, tx.instructions))
    && (f.signature == [] || text.signature(tx.signature) in f.signature)
    && (f.executionResults == [] || (tx.result.Some? && tx.result.value in f.executionResults))
  }

  /** The names echoed on an update for the transaction. */
  function NamesMatched(text: Base58, transactions: map<string, P.TransactionFilter>, tx: Tx): set<string> {
    set name | name in transactions && PMatches(text, transactions[name], tx)
  }

  // ----- lowering preserves meaning -----

  lemma {:induction false} InstructionLowered(text: Base58, f: InstructionFilter, instruction: Instruction)
    requires Faithful(text)
    ensures PInstructionMatches(text, LowerInstruction(text, f), instruction) <==> InstructionMatches(f, instruction)
  {}

  /** The outcomes sent read back as the outcomes asked for, one by one. */
  lemma {:induction false} OutcomesOnTheWire(text: Base58, f: Filter)
    ensures var sent := LowerFilter(text, f).executionResults;
            && |sent| == |f.executionResults|
            && forall i :: 0 <= i < |sent| ==> OutcomeOf(sent[i]) == Some(f.executionResults[i])
  {}

  /** A number is among those sent exactly when it stands for a wanted outcome. */
  lemma {:induction false} NumberSentIff(text: Base58, f: Filter, number: int)
    ensures number in LowerFilter(text, f).executionResults <==> Known(number, f.executionResults)
  {
    var sent, wanted := LowerFilter(text, f).executionResults, f.executionResults;
    if Known(number, wanted) {
      var i :| 0 <= i < |wanted| && wanted[i] == OutcomeOf(number).value;
      assert sent[i] == number;
    }
  }

  /** A lowered filter matches, on the server, exactly the transactions the
      client's filter describes. */
  lemma {:induction false} FilterLowered(text: Base58, f: Filter, tx: Tx)
    requires Faithful(text)
    ensures PMatches(text, LowerFilter(text, f), tx) <==> Matches(f, tx)
  {
    if tx.result.Some? {
      NumberSentIff(text, f, tx.result.value);
    }
  }

  /** No later filter has the same name. */
  predicate IsLast(filters: NamedFilters, i: nat)
    requires i < |filters|
  {
    forall j :: i < j < |filters| ==> filters[j].0 != filters[i].0
  }

  predicate Distinct(filters: NamedFilters) {
    forall i, j :: 0 <= i < j < |filters| ==> filters[i].0 != filters[j].0
  }

  /** The request holds, under each name given, the last filter added under it
      and nothing else. */
  lemma {:induction false} LastWins(text: Base58, filters: NamedFilters)
    ensures var m := Lowered(text, filters);
            && (forall i :: 0 <= i < |filters| ==> filters[i].0 in m)
            && (forall i :: 0 <= i < |filters| && IsLast(filters, i) ==>
                  m[filters[i].0] == LowerFilter(text, filters[i].1))
            && (forall name :: name in m ==>
                  exists i :: 0 <= i < |filters| && filters[i].0 == name && IsLast(filters, i))
  {
    forall i | 0 <= i < |filters|
      ensures filters[i].0 in Lowered(text, filters)
      ensures IsLast(filters, i) ==> Lowered(text, filters)[filters[i].0] == LowerFilter(text, filters[i].1)
    {
      HeldUnder(text, filters, i);
    }
    forall name | name in Lowered(text, filters)
      ensures exists i :: 0 <= i < |filters| && filters[i].0 == name && IsLast(filters, i)
    {
      var i := LastUnder(text, filters, name);
    }
  }

  lemma {:induction false} HeldUnder(text: Base58, filters: NamedFilters, i: nat)
    requires i < |filters|
    ensures filters[i].0 in Lowered(text, filters)
    ensures IsLast(filters, i) ==> Lowered(text, filters)[filters[i].0] == LowerFilter(text, filters[i].1)
  {
    hide LowerFilter;
    var n := |filters| - 1;
    if i < n {
      HeldUnder(text, filters[..n], i);
      assert IsLast(filters, i) ==> IsLast(filters[..n], i) && filters[n].0 != filters[i].0;
    }
  }

  lemma {:induction false} LastUnder(text: Base58, filters: NamedFilters, name: string) returns (i: nat)
    requires name in Lowered(text, filters)
    ensures i < |filters| && filters[i].0 == name && IsLast(filters, i)
  {
    hide LowerFilter;
    var n := |filters| - 1;
    if filters[n].0 == name {
      i := n;
    } else {
      i := LastUnder(text, filters[..n], name);
    }
  }

  /** The names a transaction is echoed with are those whose last filter
      describes it; with distinct names, of every filter that describes it. */
  lemma {:induction false} LoweringPreservesMeaning(text: Base58, filters: NamedFilters, tx: Tx)
    requires Faithful(text)
    ensures NamesMatched(text, Lowered(text, filters), tx)
            == set i | 0 <= i < |filters| && IsLast(filters, i) && Matches(filters[i].1, tx) :: filters[i].0
    ensures Distinct(filters) ==>
              NamesMatched(text, Lowered(text, filters), tx)
              == set i | 0 <= i < |filters| && Matches(filters[i].1, tx) :: filters[i].0
  {
    hide Matches, PMatches, LowerFilter;
    LastWins(text, filters);
    var m := Lowered(text, filters);
    forall i | 0 <= i < |filters|
      ensures PMatches(text, LowerFilter(text, filters[i].1), tx) <==> Matches(filters[i].1, tx)
    {
      FilterLowered(text, filters[i].1, tx);
    }
    assert Distinct(filters) ==> forall i :: 0 <= i < |filters| ==> IsLast(filters, i);
  }

  /** No filter is overwritten exactly when the names are pairwise distinct. */
  lemma {:induction false} NoneOverwrittenIff(text: Base58, filters: NamedFilters)
    ensures |Lowered(text, filters)| <= |filters|
    ensures |Lowered(text, filters)| == |filters| <==> Distinct(filters)
  {
    hide LowerFilter;
    if filters == [] {
    } else {
      var n := |filters| - 1;
      var front, name := filters[..n], filters[n].0;
      NoneOverwrittenIff(text, front);
      assert forall i :: 0 <= i < n ==> front[i] == filters[i];
      if name in Lowered(text, front) {
        var i := LastUnder(text, front, name);
        assert filters[i].0 == name;
      } else {
        forall i | 0 <= i < n
          ensures filters[i].0 != name
        {
          HeldUnder(text, front, i);
        }
      }
    }
  }
}
