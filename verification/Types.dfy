/** The ledger's records (pkg/types, pkg/tx, pkg/block, internal/utxo) and the constants of
    config/genesis.go. Byte encodings are not modelled: a hash is the number its 32 bytes
    spell, and the hash functions are arbitrary constants about which nothing is known but
    what a lemma assumes by name. */
module Types {
  import opened Primitives

  type Hash = nat
  type TokenId = nat

  const ZERO_HASH: Hash := 0

  const COINBASE_MATURITY: nat := 20
  const UNSTAKE_COOLDOWN: nat := 20
  const COIN: nat := 1_000_000_000_000
  const TOKEN_CREATION_FEE: nat := 50 * COIN
  const MAX_TOKEN_AMOUNT: nat := 0xFFFF_FFFF_FFFF_FFFF / 1000
  const MAX_BLOCK_SIZE: nat := 2_000_000
  const MAX_BLOCK_TXS: nat := 500
  const MAX_TX_INPUTS: nat := 2500
  const MAX_TX_OUTPUTS: nat := 2500
  const MAX_SCRIPT_DATA: nat := 65_536
  const ADDRESS_SIZE: nat := 20
  const PUBKEY_SIZE: nat := 33
  const HEADER_SIZE: nat := 100

  type Address = b: Bytes | |b| == 20 witness seq(20, i => 0)

  datatype Outpoint = Outpoint(txId: Hash, index: nat) {
    predicate IsZero() { txId == ZERO_HASH && index == 0 }
  }

  datatype ScriptType = P2PKH | P2SH | Mint | Burn | Anchor | Register | Bridge | Stake | Unknown(code: Byte)

  datatype Script = Script(kind: ScriptType, data: Bytes)

  datatype TokenData = TokenData(id: TokenId, amount: Uint64)

  datatype Input = Input(prevOut: Outpoint, signature: Bytes, pubKey: Bytes)

  datatype Output = Output(value: Uint64, script: Script, token: Option<TokenData>)

  datatype Tx = Tx(version: nat, inputs: seq<Input>, outputs: seq<Output>, lockTime: Uint64)

  datatype Header = Header(version: nat, prevHash: Hash, merkleRoot: Hash, timestamp: Uint64,
                           height: Uint64, difficulty: Uint64, nonce: Uint64, validatorSig: Bytes)

  datatype Block = Block(header: Header, txs: seq<Tx>) {
    function Hash(): Hash { HeaderHash(header) }
  }

  datatype Utxo = Utxo(outpoint: Outpoint, value: Uint64, script: Script, token: Option<TokenData>,
                       height: nat, coinbase: bool, lockedUntil: nat)

  /** What is kept of a block so that it can be reverted (UndoData). */
  datatype Undo = Undo(spent: seq<Utxo>, created: seq<Outpoint>, txHashes: seq<Hash>, reward: nat)

  type UtxoMap = map<Outpoint, Utxo>

  // The cryptographic primitives: arbitrary functions.
  const TxHash: Tx -> Hash
  const HeaderHash: Header -> Hash
  const SigningSize: Tx -> nat
  const VerifySignature: (Hash, Bytes, Bytes) -> bool
  const AddressOf: Bytes -> Bytes
  const HashConcat: (Hash, Hash) -> Hash
  const DeriveTokenId: Outpoint -> TokenId

  /** The hashes of a list of transactions, in order. */
  function TxHashes(txs: seq<Tx>): (r: seq<Hash>)
    ensures |r| == |txs| && forall i :: 0 <= i < |txs| ==> r[i] == TxHash(txs[i])
  {
    seq(|txs|, i requires 0 <= i < |txs| => TxHash(txs[i]))
  }

  predicate IsStakeScript(s: Script) {
    s.kind == Stake && |s.data| == PUBKEY_SIZE
  }

  /** The address a script is indexed under, if it carries one (scriptAddress). */
  function ScriptAddress(s: Script): Option<Bytes> {
    if (s.kind == P2PKH || s.kind == Mint) && |s.data| >= ADDRESS_SIZE
    then Some(s.data[..ADDRESS_SIZE]) else None
  }
}
