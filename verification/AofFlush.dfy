/**
 * Writing the append-only buffer to its file: full, failed and short writes, a short
 * write undone by truncating or kept, and the bookkeeping of sizes and syncs.
 */
module AofFlush {

  datatype Policy = Always | EverySec | No

  // What the outside does during one flush: the results of successive write() calls,
  // None for an interrupted one and negative for an error, whether truncating and
  // syncing work, the clock, a sync still running, and a child that forbids syncing.
  datatype World = World(
    writes: seq<WriteResult>, truncates: bool, syncs: bool, now: nat, syncing: bool, childBusy: bool)

  datatype WriteResult = Interrupted | Error | Wrote(n: nat)

  // What a sequence of write() calls puts in the file, of `len` bytes to write.
  function Total(len: nat, results: seq<WriteResult>): (n: nat)
    ensures n <= len
    decreases |results|
  {
    if len == 0 || results == [] then 0
    else
      match results[0]
      case Interrupted => Total(len, results[1..])
      case Error => 0
      case Wrote(n) =>
        var w := if n < len then n else len;
        w + Total(len - w, results[1..])
  }

  class AppendFile {
    // The file's bytes, and those waiting.
    var file: string
    var buf: string
    // aof_last_incr_size, aof_current_size, aof_last_incr_fsync_offset.
    var size: nat
    var current: nat
    var synced: nat
    var failing: bool
    var lastSync: nat
    var postponed: nat
    ghost var fed: string

    ghost predicate Valid()
      reads this
    {
      file + buf == fed && size == |file| && synced <= size && size <= current
    }

    constructor ()
      ensures Valid() && fed == "" && file == ""
    {
      file, buf, size, current, synced := "", "", 0, 0, 0;
      failing, lastSync, postponed := false, 0, 0;
      fed := "";
    }

    method Feed(bytes: string)
      requires Valid()
      modifies this`buf, this`fed
      ensures Valid() && fed == old(fed) + bytes
    {
      buf := buf + bytes;
      fed := fed + bytes;
    }

    // aofWrite: keeps writing until done or an error; an error before the first byte is -1.
    method Write(results: seq<WriteResult>) returns (n: int)
      requires buf != ""
      modifies this`file
      ensures file == old(file) + buf[..Total(|buf|, results)]
      ensures n == if Total(|buf|, results) == 0 then -1 else Total(|buf|, results)
    {
      var len, done, i := |buf|, 0, 0;
      assert results[0..] == results;
      while len > 0
        invariant 0 <= i <= |results| && 0 <= done <= |buf| && len == |buf| - done
        invariant file == old(file) + buf[..done]
        invariant done + Total(len, results[i..]) == Total(|buf|, results)
        decreases |results| - i
      {
        if i == |results| {
          break;
        }
        ghost var here := results[i..];
        assert here[0] == results[i] && here[1..] == results[i + 1..];
        match results[i] {
          case Interrupted =>
          case Error =>
            return if done > 0 then done else -1;
          case Wrote(n) =>
            var w := if n < len then n else len;
            assert buf[..done + w] == buf[..done] + buf[done..done + w];
            file := file + buf[done..done + w];
            len, done := len - w, done + w;
        }
        i := i + 1;
      }
      n := if done > 0 then done else -1;
    }

    /**
     * flushAppendOnlyFile. Whatever the writes do, the file followed by the buffer is
     * everything fed, the recorded size is the file's, and nothing in the file is lost.
     * Under ALWAYS a write or sync that fails ends the process, and nothing else does.
     * What is written, synced and put off is stated exactly.
     */
    method Flush(force: bool, policy: Policy, world: World) returns (exited: bool)
      requires Valid()
      modifies this`file, this`buf, this`size, this`current, this`synced, this`failing, this`lastSync, this`postponed
      ensures !exited ==> Valid()
      ensures old(file) <= file <= fed
      ensures !exited ==> current - old(current) == size - old(size)
      ensures !exited ==>
        var tried := old(buf) != "" && Tries(force, policy, world, old(postponed));
        && (if tried then Written(old(file), old(buf), world, file, buf, failing)
            else file == old(file) && buf == old(buf) && failing == old(failing))
        && (if tried || old(buf) == "" then SyncedAfter(policy, world, old(synced), old(lastSync), size, buf, synced)
            else synced == old(synced))
        && postponed == (if tried then 0 else if old(buf) == "" || old(postponed) != 0 then old(postponed) else world.now)
      ensures !exited ==>
        var reached :=
          if old(buf) == "" then old(synced) != old(size) && (policy.Always? || !world.syncing)
          else buf == "";
        var due := policy.Always? || (policy.EverySec? && world.now - old(lastSync) >= 1000);
        lastSync == if reached && due && !world.childBusy then world.now else old(lastSync)
      ensures
        var whole := Total(|old(buf)|, world.writes) == |old(buf)|;
        var syncs := old(buf) != "" || old(synced) != old(size);
        exited <==> policy.Always? && (whole ==> syncs && !world.childBusy && !world.syncs)
      ensures !exited && policy.Always? && !world.childBusy ==> synced == size && file == fed
    {
      exited := false;
      if buf == "" {
        assert file == fed;
        if synced != size && (policy.Always? || (policy.EverySec? && world.now - lastSync >= 1000 && !world.syncing)) {
          exited := Sync(policy, world, world.syncing);
        }
        return;
      }
      if policy.EverySec? && !force && world.syncing {
        if postponed == 0 {
          postponed := world.now;
          return;
        } else if world.now - postponed < 2000 {
          return;
        }
      }
      postponed := 0;
      var all := WriteBuffer(policy, world);
      if !all {
        return policy.Always?;
      }
      exited := Sync(policy, world, world.syncing);
    }

    // The write and its error handling; true if the whole buffer went out.
    method WriteBuffer(policy: Policy, world: World) returns (all: bool)
      requires Valid() && buf != ""
      modifies this`file, this`buf, this`size, this`current, this`failing
      ensures all || !policy.Always? ==> Valid() && current - old(current) == size - old(size)
      ensures old(file) <= file <= fed
      ensures all <==> Total(|old(buf)|, world.writes) == |old(buf)|
      ensures all ==> file == fed && buf == "" && !failing
      ensures all || !policy.Always? ==> Written(old(file), old(buf), world, file, buf, failing)
    {
      var n := Write(world.writes);
      ghost var w := Total(|buf|, world.writes);
      assert buf == buf[..w] + buf[w..];
      assert fed == file + buf[w..];
      all := n == |buf|;
      if !all {
        if n >= 0 && world.truncates {
          file := file[..size];
          assert file == old(file);
          n := -1;
        }
        if policy.Always? {
          return;
        }
        failing := true;
        if n > 0 {
          current, size := current + n, size + n;
          buf := buf[n..];
        }
        return;
      }
      failing := false;
      current, size := current + n, size + n;
      buf := "";
    }

    // try_fsync.
    method Sync(policy: Policy, world: World, syncing: bool) returns (exited: bool)
      requires Valid()
      modifies this`synced, this`lastSync
      ensures Valid() && (exited ==> policy.Always?)
      ensures exited <==> policy.Always? && !world.childBusy && !world.syncs
      ensures !exited ==>
        if world.childBusy || policy.No? || (policy.EverySec? && world.now - old(lastSync) < 1000)
        then synced == old(synced) && lastSync == old(lastSync)
        else synced == (if policy.EverySec? && syncing then old(synced) else size) && lastSync == world.now
    {
      exited := false;
      if world.childBusy {
        return;
      }
      if policy.Always? {
        if !world.syncs {
          return true;
        }
        synced := size;
        lastSync := world.now;
      } else if policy.EverySec? && world.now - lastSync >= 1000 {
        if !syncing {
          synced := size;
        }
        lastSync := world.now;
      }
    }
  }

  // What a write leaves: everything in the file, or, of a short write, what it put there
  // unless that was cut off again. The bytes not in the file stay in the buffer.
  ghost predicate Written(was: string, waiting: string, world: World, file: string, buf: string, failing: bool) {
    var n := Total(|waiting|, world.writes);
    var kept := if n == |waiting| || !world.truncates then n else 0;
    file == was + waiting[..kept] && buf == waiting[kept..] && failing == (n != |waiting|)
  }

  /**
   * What is synced after a flush that got as far as syncing: everything, if the buffer
   * went out, no child forbids it, and the policy asks for it: always, or a second after
   * the last sync unless one is still running.
   */
  ghost predicate SyncedAfter(policy: Policy, world: World, was: nat, last: nat, size: nat, buf: string, synced: nat) {
    var due := policy.Always? || (policy.EverySec? && world.now - last >= 1000 && !world.syncing);
    synced == if buf == "" && !world.childBusy && due then size else was
  }

  // A flush with something to write does not wait for a running sync: it is forced, the
  // policy does not wait, none is running, or it has waited two seconds.
  predicate Tries(force: bool, policy: Policy, world: World, postponed: nat) {
    force || !policy.EverySec? || !world.syncing || (postponed != 0 && world.now - postponed >= 2000)
  }
}
