/** Entities shared by every component: addresses, hashes, transactions, blocks, receipts. */
module Types {

  datatype Option<+T> = None | Some(value: T)

  const U64: int := 0x1_0000_0000_0000_0000

  /** Go's uint64. Every addition that can wrap goes through WrapAdd. */
  type uint64 = n: int | 0 <= n < 0x1_0000_0000_0000_0000

  newtype byte = b: int | 0 <= b < 256

  /** Addresses and hashes are only compared, so any infinite set of names will do. */
  type Address = nat
  type Hash = nat

  const ZERO_ADDRESS: Address := 0
  const ZERO_HASH: Hash := 0

  /** One whole coin: 10^18 wei. */
  const WEI: int := 1_000_000_000_000_000_000

  function WrapAdd(a: uint64, b: uint64): uint64 {
    (a + b) % 0x1_0000_0000_0000_0000
  }

  datatype Signature = Signature(v: int, r: int, s: int)

  datatype Tx = Tx(
    nonce: uint64,
    to: Option<Address>,
    value: int,
    gas: uint64,
    gasPrice: int,
    data: seq<byte>,
    sig: Option<Signature>)

  datatype Header = Header(parentHash: Hash, number: uint64, time: uint64, stateRoot: Hash, txRoot: Hash)

  datatype Block = Block(header: Header, transactions: seq<Tx>)

  datatype Receipt = Receipt(
    txHash: Hash,
    blockHash: Hash,
    blockNumber: uint64,
    transactionIndex: nat,
    from: Address,
    to: Address,
    gasUsed: uint64,
    status: uint64)

  /** A legacy Ethereum transaction as eth_sendRawTransaction decodes it; payload is the rest of its fields. */
  datatype EthTx = EthTx(nonce: uint64, to: Option<Address>, value: int, payload: seq<byte>)

  /**
   * Hashing and sender recovery, which the model leaves uninterpreted: every theorem holds for all
   * choices of these functions. A None sender is a failed signature recovery.
   */
  datatype Crypto = Crypto(
    txHash: Tx -> Hash,
    headerHash: Header -> Hash,
    sender: Tx -> Option<Address>,
    ethHash: EthTx -> Hash,
    ethSender: EthTx -> Option<Address>)

  /** The fixed parameters of one node. */
  datatype Config = Config(crypto: Crypto, admin: Address, treasury: Address)

  /** The hash of a block: a function of its header only. */
  function BlockHash(crypto: Crypto, b: Block): Hash {
    crypto.headerHash(b.header)
  }

  ghost function HashesOf(crypto: Crypto, txs: seq<Tx>): set<Hash> {
    set tx | tx in txs :: crypto.txHash(tx)
  }
}
