/** The key-value database as the node uses it: one region per key prefix. Single puts and
    deletes are atomic, so is a committed batch; a crash or an I/O error is a write that does not
    happen, after which no other write happens either. */
module Storage {
  import opened Primitives
  import opened Types

  datatype Disk = Disk(
    blocks: map<Hash, Block>,        // b/  block by hash
    heights: map<nat, Hash>,         // h/  block hash by height
    txs: map<Hash, (nat, Hash)>,     // x/  where a transaction was confirmed
    undos: map<Hash, Undo>,          // d/  undo record by block hash
    tip: Option<Hash>,               // s/tip
    height: Option<nat>,             // s/height
    supply: Option<nat>,             // s/supply
    cumDiff: Option<nat>,            // s/cumdiff
    checkpoint: Option<nat>,         // s/reorg
    utxos: UtxoMap,                  // u/  unspent outputs
    addrs: set<(Bytes, Outpoint)>,   // a/  address index
    stakes: set<(Bytes, Outpoint)>)  // k/  stake index
  {
    /** Everything but the three regions of the UTXO store. */
    function Rest(): Disk {
      this.(utxos := map[], addrs := {}, stakes := {})
    }

    function BlockAt(h: nat): Option<Block> {
      if h in heights && heights[h] in blocks then Some(blocks[heights[h]]) else None
    }
  }

  const EMPTY_DISK: Disk := Disk(map[], map[], map[], map[], None, None, None, None, None, map[], {}, {})

  class Database {
    var disk: Disk
    var writesLeft: nat

    constructor (disk: Disk, writesLeft: nat)
      ensures this.disk == disk && this.writesLeft == writesLeft
    {
      this.disk := disk;
      this.writesLeft := writesLeft;
    }

    /** One atomic write; `next` differs from the current contents by one key or one batch. */
    method Write(next: Disk) returns (ok: bool)
      modifies this
      ensures ok <==> old(writesLeft) > 0
      ensures ok ==> disk == next && writesLeft == old(writesLeft) - 1
      ensures !ok ==> disk == old(disk) && writesLeft == 0
    {
      if writesLeft == 0 {
        return false;
      }
      disk := next;
      writesLeft := writesLeft - 1;
      return true;
    }
  }
}
