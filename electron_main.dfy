/**
 * The Electron main process's window handlers: the `window:move` handler that
 * moves the window by relative offsets through a cached absolute position, the
 * `window:set-ignore-mouse-events` handler with its `forward` default, the
 * `window-all-closed` reset, and the renderer console-level lookup.
 *
 * The window is present or not (`win`); its position is the one the operating
 * system reports through `getPosition`. Calls into Electron are logged.
 */
module ElectronMain {
  import opened Wrappers
  import opened JsMath

  /** A window position in screen pixels, as `getPosition` returns it. */
  datatype Position = Position(x: int, y: int)

  /**
   * A value after `Number(...)`: `NaN` or a finite number. (A payload field that
   * is missing or not numeric converts to `NaN`.)
   */
  datatype JsNumber = NaN | Finite(value: real)

  /** The `window:move` payload as the handler sees it. */
  datatype MovePayload =
    | NotAnObject
    | NullPayload
    | MoveObject(deltaX: JsNumber, deltaY: JsNumber)

  /** `IgnoreMouseEventsOptions`; an absent `forward` reads as false. */
  datatype IgnoreOptions = IgnoreOptions(forward: bool)

  /** The `window:set-ignore-mouse-events` payload, and the arguments of `setIgnoreMouseEvents`. */
  datatype IgnorePayload = IgnorePayload(ignore: bool, options: Option<IgnoreOptions>)

  /** The `console` method a renderer message is forwarded to. */
  datatype ConsoleMethod = Log | Info | Warn | Error

  /** `consoleLevelMap`. */
  const ConsoleLevelMap: map<int, ConsoleMethod> := map[0 := Log, 1 := Info, 2 := Warn, 3 := Error]

  /** `consoleLevelMap[level] ?? 'log'`. */
  function ConsoleLevelName(level: int): (r: ConsoleMethod)
    ensures 0 <= level < 4 ==> r == [Log, Info, Warn, Error][level]
    ensures !(0 <= level < 4) ==> r == Log
  {
    if level in ConsoleLevelMap then ConsoleLevelMap[level] else Log
  }

  /**
   * `options ?? (ignore ? { forward: true } : undefined)`: options given are
   * used as they are; otherwise hover events are forwarded exactly while mouse
   * events are ignored.
   */
  function FinalOptions(ignore: bool, options: Option<IgnoreOptions>): (r: Option<IgnoreOptions>)
    ensures options.Some? ==> r == options
    ensures options.None? ==> (r.Some? <==> ignore)
    ensures options.None? && r.Some? ==> r.value.forward
  {
    if options.Some? then options
    else if ignore then Some(IgnoreOptions(true))
    else None
  }

  /** The handler accepts the payload: an object whose two deltas are numbers. */
  predicate ValidMove(payload: MovePayload)
  {
    payload.MoveObject? && payload.deltaX.Finite? && payload.deltaY.Finite?
  }

  /** The rounded position `from` plus the offset. */
  function MoveTarget(from: Position, dx: real, dy: real): (r: Position)
    ensures from.x as real + dx - 0.5 < r.x as real <= from.x as real + dx + 0.5
    ensures from.y as real + dy - 0.5 < r.y as real <= from.y as real + dy + 0.5
  {
    Position(Round(from.x as real + dx), Round(from.y as real + dy))
  }

  /** An integer offset lands exactly on the sum. */
  lemma IntegerMoveIsExact(from: Position, dx: int, dy: int)
    ensures MoveTarget(from, dx as real, dy as real) == Position(from.x + dx, from.y + dy)
  {
    RoundInteger(from.x + dx);
    RoundInteger(from.y + dy);
  }

  /** Successive integer moves sum: moving by one offset and then another is moving by their sum. */
  lemma IntegerMovesSum(from: Position, dx1: int, dy1: int, dx2: int, dy2: int)
    ensures MoveTarget(MoveTarget(from, dx1 as real, dy1 as real), dx2 as real, dy2 as real)
         == MoveTarget(from, (dx1 + dx2) as real, (dy1 + dy2) as real)
  {
    IntegerMoveIsExact(from, dx1, dy1);
    IntegerMoveIsExact(Position(from.x + dx1, from.y + dy1), dx2, dy2);
    IntegerMoveIsExact(from, dx1 + dx2, dy1 + dy2);
  }

  /**
   * Fractional offsets do not sum: from any position, two moves by half a
   * pixel go two pixels, where one move by their sum goes one, because each
   * move is rounded on its own.
   */
  lemma HalfPixelMovesRoundUpEachTime(from: Position)
    ensures MoveTarget(MoveTarget(from, 0.5, 0.0), 0.5, 0.0) == Position(from.x + 2, from.y)
    ensures MoveTarget(from, 1.0, 0.0) == Position(from.x + 1, from.y)
  {
    RoundInteger(from.y);
    assert MoveTarget(from, 0.5, 0.0) == Position(from.x + 1, from.y);
    assert MoveTarget(Position(from.x + 1, from.y), 0.5, 0.0) == Position(from.x + 2, from.y);
    IntegerMoveIsExact(from, 1, 0);
  }

  class MainProcess {
    /** `win` is not null. */
    var win: bool
    /** Where the operating system has the window. */
    var windowPosition: Position
    var cachedWindowPosition: Option<Position>

    // Calls into Electron: `win.setPosition`, `win.setIgnoreMouseEvents`, `app.quit`.
    var setPositionCalls: seq<Position>
    var ignoreMouseCalls: seq<IgnorePayload>
    var quitCalls: nat

    constructor (initial: Position)
      ensures !win && windowPosition == initial && cachedWindowPosition.None?
      ensures setPositionCalls == [] && ignoreMouseCalls == [] && quitCalls == 0
    {
      win, windowPosition, cachedWindowPosition := false, initial, None;
      setPositionCalls, ignoreMouseCalls, quitCalls := [], [], 0;
    }

    /** `createWindow`: the window opens at `at`, and that position is cached. */
    method CreateWindow(at: Position)
      modifies this`win, this`windowPosition, this`cachedWindowPosition
      ensures win && windowPosition == at && cachedWindowPosition == Some(at)
    {
      win := true;
      windowPosition := at;
      cachedWindowPosition := Some(windowPosition);
    }

    /** The window is moved by other means than this handler; the cache does not follow. */
    method WindowRepositioned(at: Position)
      modifies this`windowPosition
      ensures windowPosition == at
    {
      windowPosition := at;
    }

    /**
     * The `window:set-ignore-mouse-events` handler: with a window, calls
     * `setIgnoreMouseEvents` with `ignore` and the defaulted options.
     */
    method HandleSetIgnoreMouseEvents(payload: IgnorePayload)
      modifies this`ignoreMouseCalls
      ensures !win ==> ignoreMouseCalls == old(ignoreMouseCalls)
      ensures win ==>
        ignoreMouseCalls == old(ignoreMouseCalls) + [IgnorePayload(payload.ignore, FinalOptions(payload.ignore, payload.options))]
    {
      if !win {
        return;
      }
      var finalOptions := FinalOptions(payload.ignore, payload.options);
      ignoreMouseCalls := ignoreMouseCalls + [IgnorePayload(payload.ignore, finalOptions)];
    }

    /**
     * The `window:move` handler. Without a window, or with a payload that is not
     * an object or has a `NaN` delta, nothing changes. Otherwise a missing cache
     * is first filled from the window's position; then the cache becomes the
     * rounded cache plus the offset, and the window is moved exactly there.
     */
    method HandleMove(payload: MovePayload)
      modifies this`cachedWindowPosition, this`windowPosition, this`setPositionCalls
      ensures !(win && ValidMove(payload)) ==> unchanged(this)
      ensures win && ValidMove(payload) ==>
        var from := if old(cachedWindowPosition).Some? then old(cachedWindowPosition).value else old(windowPosition);
        var target := MoveTarget(from, payload.deltaX.value, payload.deltaY.value);
        && cachedWindowPosition == Some(target)
        && windowPosition == target
        && setPositionCalls == old(setPositionCalls) + [target]
    {
      if !win {
        return;
      }
      if payload.NotAnObject? || payload.NullPayload? {
        return;
      }
      if payload.deltaX.NaN? || payload.deltaY.NaN? {
        return;
      }
      var deltaX, deltaY := payload.deltaX.value, payload.deltaY.value;
      if cachedWindowPosition.None? {
        cachedWindowPosition := Some(windowPosition);
      }
      var newX := Round(cachedWindowPosition.value.x as real + deltaX);
      var newY := Round(cachedWindowPosition.value.y as real + deltaY);
      cachedWindowPosition := Some(Position(newX, newY));
      setPositionCalls := setPositionCalls + [Position(newX, newY)];
      windowPosition := Position(newX, newY);
    }

    /**
     * The `window-all-closed` handler: except on darwin, the app quits and both
     * the window and the cached position are cleared.
     */
    method WindowAllClosed(isDarwin: bool)
      modifies this`win, this`cachedWindowPosition, this`quitCalls
      ensures isDarwin ==> unchanged(this)
      ensures !isDarwin ==> !win && cachedWindowPosition.None? && quitCalls == old(quitCalls) + 1
    {
      if !isDarwin {
        quitCalls := quitCalls + 1;
        win := false;
        cachedWindowPosition := None;
      }
    }
  }

  /**
   * Integer moves accumulate through the cache: after the window is created
   * and moved by two integer offsets, it sits at the creation position plus the
   * sum of the offsets, wherever the operating system reported it in between.
   */
  method MovesAccumulateFromCreation(at: Position, elsewhere: Position, dx1: int, dy1: int, dx2: int, dy2: int)
    returns (m: MainProcess)
    ensures m.win
    ensures m.windowPosition == Position(at.x + dx1 + dx2, at.y + dy1 + dy2)
    ensures m.cachedWindowPosition == Some(m.windowPosition)
  {
    m := new MainProcess(at);
    m.CreateWindow(at);
    m.HandleMove(MoveObject(Finite(dx1 as real), Finite(dy1 as real)));
    IntegerMoveIsExact(at, dx1, dy1);
    m.WindowRepositioned(elsewhere);
    m.HandleMove(MoveObject(Finite(dx2 as real), Finite(dy2 as real)));
    IntegerMoveIsExact(Position(at.x + dx1, at.y + dy1), dx2, dy2);
  }
}
