/**
 * The cluster worker that keeps this node's ID card alive in Redis. Once
 * initialised it renews the expiration of the node's key on every tick of an
 * interval timer; when Redis reports that the key had already expired, the
 * worker disposes of itself and tells its parent that the node was too slow.
 *
 * Redis commands, timer calls and the messages sent to the parent process are
 * recorded in logs; Redis replies and the outcome of connecting are parameters.
 */
module ClusterWorkers {
  import opened Wrappers

  /** The message sent to the parent when the ID card expired before renewal. */
  const TooSlowError := "Node too slow: ID card expired"

  /** Messages to the parent process: `{initialized: true}` and `{error: …}`. */
  datatype Message = Initialized | WorkerError(error: string)

  datatype RedisCommand = Pexpire(key: string, ttl: int) | Del(key: string)

  /** An interval timer is identified here by its period. */
  datatype TimerCall = SetInterval(delay: int) | ClearInterval(delay: int)

  datatype RenewerConfig = RenewerConfig(nodeIdKey: string, refreshDelay: int, refreshMultiplier: int)

  class IDCardRenewer {
    var disposed: bool
    var refreshTimer: Option<int>
    var nodeIdKey: Option<string>
    var refreshDelay: Option<int>
    var refreshMultiplier: Option<int>
    /** Whether a Redis handle is present. */
    var redis: bool
    var outbox: seq<Message>
    var redisCommands: seq<RedisCommand>
    var timerCalls: seq<TimerCall>

    /** A live renewer knows its key, its period and multiplier, and runs a timer. */
    predicate Valid()
      reads this
    {
      !disposed ==> nodeIdKey.Some? && refreshDelay.Some? && refreshMultiplier.Some? && refreshTimer.Some?
    }

    /** A freshly built renewer counts as disposed: there is nothing to renew yet. */
    constructor ()
      ensures Valid() && disposed && !redis
      ensures refreshTimer == None && nodeIdKey == None && refreshDelay == None && refreshMultiplier == None
      ensures outbox == [] && redisCommands == [] && timerCalls == []
    {
      disposed := true;
      refreshTimer := None;
      nodeIdKey := None;
      refreshDelay := None;
      refreshMultiplier := None;
      redis := false;
      outbox := [];
      redisCommands := [];
      timerCalls := [];
    }

    /**
     * init: connect to Redis (whether a handle results is `redisConnected`),
     * record the configuration, start the renewal timer with the configured
     * period, and tell the parent that initialisation is finished.
     */
    method Init(config: RenewerConfig, redisConnected: bool)
      modifies this
      ensures Valid() && !disposed && redis == redisConnected
      ensures nodeIdKey == Some(config.nodeIdKey) && refreshDelay == Some(config.refreshDelay)
      ensures refreshMultiplier == Some(config.refreshMultiplier) && refreshTimer == Some(config.refreshDelay)
      ensures timerCalls == old(timerCalls) + [SetInterval(config.refreshDelay)]
      ensures outbox == old(outbox) + [Initialized] && redisCommands == old(redisCommands)
    {
      redis := redisConnected;
      nodeIdKey := Some(config.nodeIdKey);
      refreshDelay := Some(config.refreshDelay);
      refreshMultiplier := Some(config.refreshMultiplier);
      disposed := false;
      timerCalls := timerCalls + [SetInterval(config.refreshDelay)];
      refreshTimer := Some(config.refreshDelay);
      outbox := outbox + [Initialized];
    }

    /**
     * renewIDCard: a disposed renewer does nothing. A live one extends its
     * key's lifetime to refreshDelay × refreshMultiplier milliseconds; a reply
     * of 0 (the key no longer existed) disposes of the renewer and reports the
     * node as too slow. Any other reply changes nothing else.
     */
    method RenewIDCard(pexpireResult: int)
      requires Valid() && (!disposed ==> redis)
      modifies this
      ensures Valid()
      ensures old(disposed) ==> unchanged(this)
      ensures !old(disposed) && pexpireResult != 0 ==>
        && !disposed && redis == old(redis) && refreshTimer == old(refreshTimer)
        && nodeIdKey == old(nodeIdKey) && refreshDelay == old(refreshDelay) && refreshMultiplier == old(refreshMultiplier)
        && redisCommands == old(redisCommands) + [Pexpire(old(nodeIdKey).value, old(refreshDelay).value * old(refreshMultiplier).value)]
        && outbox == old(outbox) && timerCalls == old(timerCalls)
      ensures !old(disposed) && pexpireResult == 0 ==>
        && disposed && refreshTimer == None && redis == old(redis)
        && nodeIdKey == old(nodeIdKey) && refreshDelay == old(refreshDelay) && refreshMultiplier == old(refreshMultiplier)
        && redisCommands == old(redisCommands) + [Pexpire(old(nodeIdKey).value, old(refreshDelay).value * old(refreshMultiplier).value), Del(old(nodeIdKey).value)]
        && outbox == old(outbox) + [WorkerError(TooSlowError)]
        && timerCalls == old(timerCalls) + [ClearInterval(old(refreshTimer).value)]
    {
      if disposed {
        return;
      }
      redisCommands := redisCommands + [Pexpire(nodeIdKey.value, refreshDelay.value * refreshMultiplier.value)];
      if pexpireResult == 0 {
        Dispose();
        outbox := outbox + [WorkerError(TooSlowError)];
      }
    }

    /**
     * dispose: idempotent. On a live renewer it marks itself disposed, stops
     * and forgets its timer, and deletes its key when a Redis handle is present.
     */
    method Dispose()
      requires Valid()
      modifies this
      ensures Valid() && disposed
      ensures old(disposed) ==> unchanged(this)
      ensures !old(disposed) ==>
        && refreshTimer == None && redis == old(redis)
        && nodeIdKey == old(nodeIdKey) && refreshDelay == old(refreshDelay) && refreshMultiplier == old(refreshMultiplier)
        && timerCalls == old(timerCalls) + [ClearInterval(old(refreshTimer).value)]
        && redisCommands == old(redisCommands) + (if redis then [Del(old(nodeIdKey).value)] else [])
        && outbox == old(outbox)
    {
      if disposed {
        return;
      }
      disposed := true;
      timerCalls := timerCalls + [ClearInterval(refreshTimer.value)];
      refreshTimer := None;
      if redis {
        redisCommands := redisCommands + [Del(nodeIdKey.value)];
      }
    }
  }

  // ---------------------------------------------------------------------------
  // Lifecycles of one worker, from construction on.

  /** Disposing of a renewer that was never initialised changes nothing and stops no timer. */
  method DisposeUninitialised() returns (disposed: bool, timerCalls: seq<TimerCall>, commands: seq<RedisCommand>)
    ensures disposed && timerCalls == [] && commands == []
  {
    var w := new IDCardRenewer();
    w.Dispose();
    disposed, timerCalls, commands := w.disposed, w.timerCalls, w.redisCommands;
  }

  /** After init the renewer is live, holds the configuration, runs a timer and has reported itself ready. */
  method InitLifecycle(config: RenewerConfig, redisConnected: bool)
    returns (disposed: bool, key: Option<string>, delay: Option<int>, timerSet: bool, sent: seq<Message>)
    ensures !disposed && key == Some(config.nodeIdKey) && delay == Some(config.refreshDelay)
    ensures timerSet && sent == [Initialized]
  {
    var w := new IDCardRenewer();
    w.Init(config, redisConnected);
    disposed, key, delay, timerSet, sent := w.disposed, w.nodeIdKey, w.refreshDelay, w.refreshTimer.Some?, w.outbox;
  }

  /**
   * One renewal of a live renewer: exactly one pexpire with the window
   * refreshDelay × refreshMultiplier; the renewer disposes of itself (deleting
   * its key and reporting the node too slow) exactly when the reply is 0.
   */
  method RenewLifecycle(config: RenewerConfig, pexpireResult: int)
    returns (disposed: bool, commands: seq<RedisCommand>, sent: seq<Message>)
    ensures disposed <==> pexpireResult == 0
    ensures commands == [Pexpire(config.nodeIdKey, config.refreshDelay * config.refreshMultiplier)]
                        + (if pexpireResult == 0 then [Del(config.nodeIdKey)] else [])
    ensures sent == [Initialized] + (if pexpireResult == 0 then [WorkerError(TooSlowError)] else [])
  {
    var w := new IDCardRenewer();
    w.Init(config, true);
    w.RenewIDCard(pexpireResult);
    disposed, commands, sent := w.disposed, w.redisCommands, w.outbox;
  }

  /** A renewal after disposal sends no pexpire, does not dispose again and sends nothing. */
  method RenewAfterDispose(config: RenewerConfig, redisConnected: bool, pexpireResult: int)
    returns (commands: seq<RedisCommand>, timerCalls: seq<TimerCall>, sent: seq<Message>)
    ensures commands == (if redisConnected then [Del(config.nodeIdKey)] else [])
    ensures timerCalls == [SetInterval(config.refreshDelay), ClearInterval(config.refreshDelay)]
    ensures sent == [Initialized]
  {
    var w := new IDCardRenewer();
    w.Init(config, redisConnected);
    w.Dispose();
    w.RenewIDCard(pexpireResult);
    commands, timerCalls, sent := w.redisCommands, w.timerCalls, w.outbox;
  }

  /**
   * Disposing of a live renewer, once or twice: it ends disposed without a
   * timer, and its key is deleted once if and only if a Redis handle exists.
   */
  method DisposeLifecycle(config: RenewerConfig, redisConnected: bool, twice: bool)
    returns (disposed: bool, timerGone: bool, commands: seq<RedisCommand>, timerCalls: seq<TimerCall>)
    ensures disposed && timerGone
    ensures commands == (if redisConnected then [Del(config.nodeIdKey)] else [])
    ensures timerCalls == [SetInterval(config.refreshDelay), ClearInterval(config.refreshDelay)]
  {
    var w := new IDCardRenewer();
    w.Init(config, redisConnected);
    w.Dispose();
    if twice {
      w.Dispose();
    }
    disposed, timerGone, commands, timerCalls := w.disposed, w.refreshTimer.None?, w.redisCommands, w.timerCalls;
  }
}
