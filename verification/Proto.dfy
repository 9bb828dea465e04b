/** The subscribe request's messages (preconfs-proto/proto/preconfs.proto).
    Strings are their UTF-8 bytes, one `char` per byte. */
module Proto {
  import opened Wrappers

  datatype Memcmp = Memcmp(offset: u32, bytes: seq<byte>)

  datatype InstructionFilter = InstructionFilter(
    programId: string, memcmp: seq<Memcmp>, dataSize: Option<u32>)

  datatype TransactionFilter = TransactionFilter(
    accountInclude: seq<string>,
    accountExclude: seq<string>,
    accountRequired: seq<string>,
    signature: seq<string>,
    executionResults: seq<int>,
    signerInclude: seq<string>,
    signerExclude: seq<string>,
    instructions: seq<InstructionFilter>)

  datatype RequestRegion = HarmonicNumber(number: int) | BamNumber(number: int)

  datatype SubscribeRequest = SubscribeRequest(
    transactions: map<string, TransactionFilter>,
    region: Option<RequestRegion>)
}
