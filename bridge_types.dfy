/**
 * The vocabulary shared by both directions of the bridge: the calls each facade
 * issues to the event loop underneath it, the arguments a user callback receives
 * when a wrapper invokes it, and the exceptions the facades throw.
 */
module BridgeTypes {

  /** PHP_INT_MAX on a 64-bit build. */
  const PhpIntMax: int := 0x7FFF_FFFF_FFFF_FFFF

  /** A stream resource, identified as `(int) $stream` identifies it. */
  type StreamId = int

  /** A timer object handed out by the underlying React loop, by identity. */
  type ReactTimer = int

  /** A call an Alert facade issues to the React loop it drives; intervals in seconds. */
  datatype ReactCall =
    | AddTimer(seconds: real)
    | AddPeriodicTimer(seconds: real)
    | AddReadStream(stream: StreamId)
    | AddWriteStream(stream: StreamId)
    | RemoveReadStream(stream: StreamId)
    | RemoveWriteStream(stream: StreamId)
    | CancelTimer(timer: ReactTimer)

  /**
   * A call a React facade issues to the Alert reactor it drives. `CancelNull` is
   * `cancel(null)`: what a lookup of a missing array key passes on.
   */
  datatype AlertCall =
    | OnReadable(stream: StreamId)
    | OnWritable(stream: StreamId)
    | Once(delay: real)
    | Repeat(interval: real)
    | Immediately
    | Cancel(watcherId: int)
    | CancelNull

  /**
   * The arguments a wrapper passes to the user callback. Where the source also
   * passes the loop itself (`$this`), that argument is implied and not shown.
   */
  datatype CallbackArgs =
    | NoArgs
    | WatcherArgs(watcherId: int)
    | StreamWatcherArgs(watcherId: int, stream: StreamId)
    | TimerArgs(timer: int)

  /** What a wrapper closure does when the underlying loop fires it. */
  datatype Invocation = Skipped | Called(args: CallbackArgs)

  /** The exceptions the facades throw. */
  datatype Error =
    | InvalidArgument        // \InvalidArgumentException
    | UnimplementedArgument  // UnimplementedArgumentException
    | UnimplementedMethod    // UnimplementedMethodException
    | UnexpectedValue        // \UnexpectedValueException from SplObjectStorage::offsetGet
    | TypeMismatch           // an argument refused by a class-typed parameter declaration
}
