# Verified models of the muduo core

This project models the parts of the muduo network library (under `src/muduo`) in which a mistake is hardest
to see by reading, and proves what they are for: calendar and time-zone arithmetic, the timer queue, the output
path of a TCP connection, the functor queue of the event loop, the bounded blocking queue, the asynchronous
logger, the network buffer and the length-prefixed codec on top of it, the two pollers, and the formatting of
log lines.

Protocols come in three layers. A `...Runs` module is the state machine: a record of the fields, a datatype of
steps at the granularity of the mutexes and system calls, and `Exec`, which runs any list of steps and stops at
one that cannot happen. A `...Theorems` module proves an invariant of every step and then the results about
every run. A module named after the source class holds that class: fields, and methods that update them as the
source does, each proved to take the step of the state machine and to keep the invariant. History that only the
theorems need (what was accepted, what ran, what was freed) is ghost in the classes; a `...Journal` or `...Ledger`
module shows that what it records is what the list of steps says by itself. Data structures are proved against the
mathematical value they stand for: a byte sequence, a map of interests, a numeral, a date.

System calls are nondeterministic: what the kernel takes, would-block, errors, spurious wakeups, the clock and
which waiter a signal picks are parameters of the steps. Threads are interleaved atomic steps. Integers are
mathematical except where width or truncation decides the result: C++ division truncates toward zero (`CppInt`), the
length and the checksum of a frame wrap into 32 bits (`Framing.Int32`), and numerals are bounded by 64-bit values.

Properties that do not hold of all inputs are stated with the exact condition under which they do, next to a
concrete failure:

- day numbers collide below the first day (`Date.DateRoundTrip`, `Date.NextDayNextNumber`, `Date.OrderIsCalendarOrder`,
  `Date.CollisionBelowFirstDay`);
- the weekday turns negative before Julian day -1 (`UtcTime.WeekDayAdvances`, `UtcTime.WeekDayNegative`), and tm_yday
  is one short in the first ten months (`UtcTime.YdayCountsDays`, `UtcTime.YdayOneShort`);
- a zone that moves its standard time back loses local times (`TimeZone.LocalRoundTripExactly`,
  `TimeZone.StandardTimeMovedBack`);
- a shutdown called from another thread can shut the write half twice (`ConnectionShutdown.ShutOnceExactly`,
  `ConnectionShutdown.CrossThreadShutdownTwice`, `ConnectionShutdown.HeldSendShutdownTwice`), also next to one in the
  loop thread (`ConnectionShutdown.ShutInLoopExactly`), and can move the state back from disconnected
  (`ConnectionTheorems.StateForwardExactly`, `ConnectionTheorems.StateMovesBack`);
- a send in the loop thread overtakes one queued from another (`ConnectionTheorems.OrderKeptExactly`,
  `ConnectionTheorems.SendOvertakes`);
- a functor queued by the loop thread before loop(), or while the functors of a batch are destroyed, is not woken for
  (`LoopTheorems.NeverLostExactly`, `LoopTheorems.LostBeforeLoop`, `LoopTheorems.LostAfterBatch`);
- a queue of capacity zero blocks everyone (`QueueTheorems.NeverStuckExactly`, `QueueTheorems.StuckWithoutCapacity`);
- the two pollers part when an empty mask is repeated (`PollerRuns.PollersAgreeExactly`, `PollerRuns.DisabledTwice`);
- a frame can be written that the reader refuses (`Framing.FrameRoundTripExactly`, `Framing.ZerosRefused`).

| file | component |
|---|---|
| `Date.dfy`, `TimeZone.dfy` | Julian day numbers, UTC and local broken-down time |
| `TimerRuns.dfy`, `TimerInvariant.dfy`, `TimerTheorems.dfy`, `TimerJournal.dfy`, `TimerQueue.dfy` | the timer queue |
| `ConnectionRuns.dfy`, `ConnectionTheorems.dfy`, `ConnectionLedger.dfy`, `ConnectionShutdown.dfy`, `TcpConnection.dfy` | sending, half-close and force-close |
| `EventLoop.dfy`, `LoopJournal.dfy` | queued functors and wakeups |
| `BoundedBlockingQueue.dfy` | the two-condition-variable queue |
| `AsyncLogging.dfy` | the double-buffered logger |
| `Buffer.dfy`, `ProtobufCodecLite.dfy` | the network buffer, big-endian integers, Adler-32, frames |
| `Pollers.dfy` | the poll(2) and epoll(4) pollers |
| `LogStream.dfy` | numerals, in-place conversion, fixed buffers |
| `Bytes.dfy` | bytes, flattening, optional values |

`dafny verify dfyconfig.toml` checks the whole project.

## Model

| member | source | states |
|---|---|---|
| Date.DateRoundTrip | src/muduo/base/Date.cc:20-42 | for every valid Gregorian date, converting to a day number and back gives the date if and only if its March-based year is not negative |
| Date.DayRoundTrip | src/muduo/base/Date.cc:29-42 | every day number from -32044 up yields a valid date that maps back to that number |
| Date.ValidExactlyFromFirstDay | src/muduo/base/Date.cc:29-42 | the division chain yields a valid date exactly from day -32044 up; below it truncation breaks the day of the month |
| Date.CollisionBelowFirstDay | src/muduo/base/Date.cc:20-27 | below the first day two different valid dates get the same number |
| Date.NextDayNextNumber | src/muduo/base/tests/Date_unittest.cc:9-29 | for every valid date, the next day by the calendar's month lengths and leap rules has the next number if and only if the March-based year is not negative, or the date is not the end of a February in a leap year or the year after one |
| Date.YearLength | src/muduo/base/Date.cc:23-26 | consecutive March-based years start 365 or 366 numbers apart, by the leap rule of the February between them from year 0 on, and by that of the February before below it, where division truncates |
| Date.OrderIsCalendarOrder | src/muduo/base/Date.h:107-115 | for every two valid dates, comparing day numbers is comparing dates, and equal numbers mean the same date, in both cases except for a 29 February below the first day and the 1 March after it |
| UtcTime.FillHMS | src/muduo/base/TimeZone.cc:76-82 | seconds, minutes and hours are the mixed-radix digits of the seconds of a day, other fields kept |
| UtcTime.ToUtcTime | src/muduo/base/TimeZone.cc:322-348 | the truncated division with its correction for negative seconds splits by floor into day and second of day, negative epochs included |
| UtcTime.SecondsRoundTrip | src/muduo/base/TimeZone.cc:322-363 | fromUtcTime inverts toUtcTime for every second from the first representable day on, and the fields are a valid date |
| UtcTime.FieldsRoundTrip | src/muduo/base/TimeZone.cc:322-363 | toUtcTime inverts fromUtcTime on every tuple of fields in range |
| UtcTime.RangeExactly | src/muduo/base/TimeZone.cc:322-348 | all fields lie in the ranges of struct tm exactly from Julian day -1 on, or further back when the weekday happens to be zero |
| UtcTime.WeekDayAdvances | src/muduo/base/Date.h:96-99 | a day later the weekday is the next one modulo 7 if and only if the Julian day is at least -1, or the next day is a Sunday; 1 January 1970 is a Thursday |
| UtcTime.WeekDayNegative | src/muduo/base/Date.h:96-99 | the day after the Sunday with Julian day -8 has weekday -6 |
| UtcTime.WeekDayFromEpoch | src/muduo/base/Date.h:96-99 | the weekday is the days since Thursday, 1 January 1970, modulo 7, if and only if the Julian day is at least -1 or a Sunday |
| UtcTime.EpochIs1970 | src/muduo/base/TimeZone.cc:322-348 | second 0 is midnight at the start of 1 January 1970 |
| UtcTime.YdayCountsDays | src/muduo/base/TimeZone.cc:342-346 | for every valid day, tm_yday is the number of days since 1 January by the month lengths, in 0..365, if and only if the day is not in the first, incomplete year; there it is one short |
| UtcTime.YdayOneShort | src/muduo/base/TimeZone.cc:342-346 | on 1 March -4800, the first valid day, tm_yday is 59 where 60 days have passed |
| TimeZone.LowerBound | src/muduo/base/TimeZone.cc:234-237 | binary search returns the first transition not before the sentry |
| TimeZone.FindLocaltime | src/muduo/base/TimeZone.cc:223-255 | the search with its step back gives the local-time type of a linear scan for the last transition not after the sentry, or the first type before them all |
| TimeZone.TypeInForce | src/muduo/base/TimeZone.cc:223-255 | from each transition to the next its own type is in force, and before all of them the first type of the file |
| TimeZone.LastNotAfterIs | src/muduo/base/TimeZone.cc:227-252 | the linear scan finds the one segment whose bounds enclose the time |
| TimeZone.ToLocalTime | src/muduo/base/TimeZone.cc:277-297 | local time is UTC time shifted by the offset in force, marked with its daylight-saving flag |
| TimeZone.LocalFields | src/muduo/base/TimeZone.cc:277-297 | clock, date, day of the year and weekday of local time are those of the shifted instant, and offset and flag those of the type in force |
| TimeZone.CorrectionExactly | src/muduo/base/TimeZone.cc:299-320 | for every time given, the answer is an hour earlier exactly when it claims daylight saving and the instant found has none and shows the same minute |
| TimeZone.FromLocalTime | src/muduo/base/TimeZone.cc:299-320 | the reverse lookup by local transition times, with the daylight-saving correction for a repeated hour |
| TimeZone.LocalRoundTripExactly | src/muduo/base/TimeZone.cc:223-320 | for zones with well separated transitions, every instant survives the trip to local time and back if and only if clocks go back only where daylight saving ends, by one hour |
| TimeZone.RoundTripAt | src/muduo/base/TimeZone.cc:299-320 | the instant-by-instant half of that, the repeated hour included |
| TimeZone.DaylightSavingRoundTrip | src/muduo/base/TimeZone.cc:223-320 | zones with a standard offset and a daylight-saving offset one hour ahead, in any order, with transitions more than one hour apart, round-trip at every instant that has a date |
| TimeZone.StandardTimeMovedBack | src/muduo/base/TimeZone.cc:304-319 | a zone that moves standard time back by half an hour returns an instant 1800 seconds late |
| Timers.InsertKeepsOrder | src/muduo/net/TimerQueue.cc:235-259 | insertion keeps the set ordered, adds exactly that entry, and changes the first entry exactly when the new one is earlier |
| Timers.EraseKeepsOrder | src/muduo/net/TimerQueue.cc:148-156 | erasing removes exactly that entry and never makes the first entry earlier |
| Timers.ExpiredSplit | src/muduo/net/TimerQueue.cc:183-202 | the sentry with the largest pointer splits the set into exactly the timers due by now and those later |
| TimerInvariant.StepInv | src/muduo/net/TimerQueue.cc:132-259 | every step of the queue, also those a callback makes during a batch, keeps the whole invariant |
| TimerTheorems.NeverTouchesDeleted | src/muduo/net/TimerQueue.cc:132-233 | in every run, no step reads or deletes a timer object that has been deleted, the read of the first pending timer at the end of reset() included |
| TimerTheorems.IndexesHoldTheSame | src/muduo/net/TimerQueue.cc:132-259 | after every run, timers_ and activeTimers_ hold the same timers, under their current expirations, in the same number |
| TimerTheorems.BatchIsApart | src/muduo/net/TimerQueue.cc:163-202 | a running batch shares no timer with the pending ones, is live, and holds only timers that were due |
| TimerTheorems.RunsAreRight | src/muduo/net/TimerQueue.cc:163-181 | no timer runs before its expiration; a timer that runs twice is a repeating one and runs in different batches |
| TimerTheorems.CancelledStaysOut | src/muduo/net/TimerQueue.cc:143-161 | a timer cancelled after its insertion never runs in a later batch, whatever happens afterwards |
| TimerTheorems.DeletedExactlyOnce | src/muduo/net/TimerQueue.cc:143-233 | no timer is freed twice; one is freed exactly when it is neither pending nor in the batch; only cancelled timers and one-shots that ran are freed |
| TimerTheorems.AlarmInTime | src/muduo/net/TimerQueue.cc:132-259 | outside handleRead, with any timer pending, the timerfd is armed no later than the earliest expiration or 100 microseconds after arming |
| TimerTheorems.StaleIdIsInert | src/muduo/net/TimerQueue.cc:143-161 | cancelling an id that names no added live timer changes nothing, now or in any run that follows, except what cancelingTimers_ holds, even if the address is in use again or comes to be |
| TimerJournal.RunsWhenDue | src/muduo/net/TimerQueue.cc:163-233 | in every run, a timer's first callback is due when its creator asked, and each later one its interval, to the microsecond, after the batch of the one before, which only a repeating timer has; time and batch of each are those of the steps |
| TimerJournal.PendingWhenDue | src/muduo/net/TimerQueue.cc:116-259 | every pending timer was made and added, and is to expire when it is due in that sense |
| TimerJournal.EndRestarts | src/muduo/net/TimerQueue.cc:204-233 | when a batch ends, every repeating timer of it not cancelled meanwhile is pending again its interval after the batch's time, every other is deleted, and timers outside the batch stay as they are |
| TimerJournal.BatchTakesAllDue | src/muduo/net/TimerQueue.cc:183-202 | a batch takes exactly the pending timers that are due, in order |
| TimerJournal.DeletedForCause | src/muduo/net/TimerQueue.cc:143-233 | a timer is deleted only after cancel was called with its id, or as a one-shot that has run |
| TimerJournal.ArmedExactly | src/muduo/net/TimerQueue.cc:132-141 | the timerfd is armed when a timer comes to be strictly first and when a batch ends with one pending, for the later of its expiration and 100 microseconds after arming, and at no other step |
| TimerQueue.HowMuchTimeFromNow | src/muduo/net/TimerQueue.cc:41-55 | seconds and nanoseconds, in whole microseconds, make up the distance to the deadline, or 100 microseconds if that is more |
| TimerQueue.TimerQueue.constructor | src/muduo/net/TimerQueue.cc:91-102 | starts with both indexes empty |
| TimerQueue.TimerQueue.CreateTimer | src/muduo/net/Timer.h:29-35 | a new timer takes the next sequence number and waits to be added in the loop |
| TimerQueue.TimerQueue.Insert | src/muduo/net/TimerQueue.cc:235-259 | enters a timer into both indexes and reports whether it became the earliest |
| TimerQueue.TimerQueue.AddTimerInLoop | src/muduo/net/TimerQueue.cc:132-141 | takes the add step, rearming exactly when the earliest expiration changed |
| TimerQueue.TimerQueue.CancelInLoop | src/muduo/net/TimerQueue.cc:143-161 | takes the cancel step: removed and freed when pending, noted when called from a batch, nothing otherwise |
| TimerQueue.TimerQueue.GetExpired | src/muduo/net/TimerQueue.cc:183-202 | takes exactly the due prefix out of both indexes |
| TimerQueue.TimerQueue.Recycle | src/muduo/net/TimerQueue.cc:208-222 | a repeating timer that was not cancelled is reinserted to expire its interval after the batch's time; any other is freed |
| TimerQueue.TimerQueue.Reset | src/muduo/net/TimerQueue.cc:204-233 | recycles the whole batch and arms for the earliest timer left |
| TimerQueue.TimerQueue.RunScript | src/muduo/net/TimerQueue.cc:116-161 | whatever a callback creates, adds and cancels is that run of steps |
| TimerQueue.TimerQueue.StartBatch | src/muduo/net/TimerQueue.cc:163-173 | opens a batch with the due timers and forgets earlier cancellations |
| TimerQueue.TimerQueue.RunOne | src/muduo/net/TimerQueue.cc:174-177 | runs the next due timer and everything its callback does |
| TimerQueue.TimerQueue.HandleRead | src/muduo/net/TimerQueue.cc:163-181 | the whole of handleRead, for any behaviour of the callbacks, is the run of its steps and keeps the invariant |
| ConnectionTheorems.StepInv | src/muduo/net/TcpConnection.cc:92-421 | every step, under any short write, would-block or error and any interleaving of the checks, sets and pushes of other threads' calls, keeps the invariant of the connection |
| ConnectionTheorems.StreamConserved | src/muduo/net/TcpConnection.cc:139-192 | after every run, the bytes the kernel took followed by the output buffer are the handled messages in order; until the connection is closed, write interest is on exactly when the buffer is not empty; each message handed over is handled, dropped on error, late or still queued |
| ConnectionTheorems.ShutsOnlyDrained | src/muduo/net/TcpConnection.cc:205-213 | whatever step of whatever run shuts the write half of a connection not closed, every byte handled by then is with the kernel |
| ConnectionTheorems.StreamInOrder | src/muduo/net/TcpConnection.cc:92-192 | as long as no send in the loop thread is made with another queued, and nothing is dropped, the bytes with the kernel, the output buffer and the queued messages are the messages handed over by send(), in that order |
| ConnectionTheorems.LoopStreamInOrder | src/muduo/net/TcpConnection.cc:92-192 | with every send in the loop thread and nothing dropped, kernel bytes and output buffer are exactly the messages sent, in order |
| ConnectionTheorems.OrderKeptExactly | src/muduo/net/TcpConnection.cc:92-110 | with the bytes in order so far, a send in the loop thread that does not break on its write keeps them so if and only if its bytes can change places with all bytes queued, as when there are none |
| ConnectionTheorems.SendOvertakes | src/muduo/net/TcpConnection.cc:92-110 | a run in which a send in the loop thread overtakes one queued earlier |
| ConnectionLedger.HandedOverExactly | src/muduo/net/TcpConnection.cc:92-110 | in every run, the messages handed over, whether the connection is open, and the threads inside send() are what the list of steps alone says: the sends made while open, and the pushes of those begun while open, in order |
| ConnectionLedger.SendInLoopTakes | src/muduo/net/TcpConnection.cc:139-192 | a message ends up late exactly on a closed connection, dropped exactly when a direct write breaks, and otherwise at the end of the stream, with as many bytes gone as the kernel took |
| ConnectionLedger.SendTakes | src/muduo/net/TcpConnection.cc:92-110 | a send in the loop thread on an open connection puts its message at the end of the stream, unless the write breaks |
| ConnectionLedger.WritableTakes | src/muduo/net/TcpConnection.cc:368-406 | as many bytes as the kernel takes move from the buffer to the stream; the last one turns write interest off, notifies, and completes a shutdown |
| ConnectionLedger.NothingLost | src/muduo/net/TcpConnection.cc:92-192 | in every run with no write failing for good and the connection not closed, every message handed over is in the stream or queued |
| ConnectionLedger.SentIsWritten | src/muduo/net/TcpConnection.cc:92-192 | in every run with all sends in the loop thread and no write failing for good, kernel bytes and output buffer are exactly the messages of the sends made while open, in order |
| ConnectionLedger.EntersExactly | src/muduo/net/TcpConnection.cc:92-269 | a call from another thread gets past its check in the states the source names for it, and otherwise changes nothing |
| ConnectionLedger.ClosesExactly | src/muduo/net/TcpConnection.cc:261-269 | a connection is closed by the peer, by a force-close that is reached while it is live, or by its owner while it is open, and by nothing else |
| ConnectionLedger.FirstInFirstOut | src/muduo/net/TcpConnection.cc:100-107 | a step only takes the first of the functors queued for a connection, or adds after the last |
| ConnectionTheorems.StepForward | src/muduo/net/TcpConnection.cc:194-269 | a step moves the state back along connecting, connected, disconnecting, disconnected exactly when another thread, past its check in shutdown or a force-close, sets it on a closed connection |
| ConnectionTheorems.StateForwardExactly | src/muduo/net/TcpConnection.cc:194-269 | from any state reached, and with no further such call from another thread, the state never moves back in any continuation if and only if no thread is between its check and its set |
| ConnectionTheorems.StateForward | src/muduo/net/TcpConnection.cc:194-269 | in every run in which shutdown and the force-closes are called in the loop thread, the state never moves back |
| ConnectionTheorems.StateMovesBack | src/muduo/net/TcpConnection.cc:194-203 | a run in which the peer closes between the check and the set of a shutdown, and the state goes from disconnected to disconnecting |
| ConnectionShutdown.HalfCloseInOrder | src/muduo/net/TcpConnection.cc:194-213 | with all calls in the loop thread, the write half is shut at most once, after every byte queued before went to the kernel, and nothing is accepted or written afterwards |
| ConnectionShutdown.ShutOnceExactly | src/muduo/net/TcpConnection.cc:194-213 | from any state reached, when another thread sets the state in shutdown, the write half is shut at most once in every continuation if and only if nothing is being written, no send of any byte is queued or held by a thread past its check, and no other shutdown is done, queued or past its check |
| ConnectionShutdown.ShutInLoopExactly | src/muduo/net/TcpConnection.cc:194-213 | from any connected state reached, a shutdown called in the loop thread shuts the write half at most once in every continuation if and only if no other thread is past its check in shutdown |
| ConnectionShutdown.CrossThreadShutdownTwice | src/muduo/net/TcpConnection.cc:194-213 | a run with shutdown called from another thread while a message waits to be written, in which the write half is shut twice |
| ConnectionShutdown.HeldSendShutdownTwice | src/muduo/net/TcpConnection.cc:92-110 | the same on an idle connection, with a send that passed its check before the state was set and pushes after |
| ConnectionLedger.ShutdownTakesEffect | src/muduo/net/TcpConnection.cc:194-213 | after a shutdown in the loop thread on an open connection, in every continuation the write half has been shut, or output is still being written, or the connection is closed |
| ConnectionLedger.PushedShutdownTakesEffect | src/muduo/net/TcpConnection.cc:194-213 | the same for another thread's shutdown, once the loop has run what was queued ahead of its functor and the functor |
| ConnectionLedger.ForceCloseTakesEffect | src/muduo/net/TcpConnection.cc:239-269 | after a forceClose in the loop thread, the connection is closed once the loop has run what was queued and its functor, and is disconnected for good unless another thread is closing too |
| ConnectionLedger.PushedForceCloseTakesEffect | src/muduo/net/TcpConnection.cc:239-269 | the same closing for another thread's forceClose, from its push on |
| TcpConnection.NotifiesExactly | src/muduo/net/TcpConnection.cc:150-191 | the high-water callback is queued exactly on crossing the mark, the write-complete callback exactly when the message went out whole at once |
| TcpConnection.TcpConnection.constructor | src/muduo/net/TcpConnection.cc:38-64 | a connection starts connecting, with nothing buffered |
| TcpConnection.TcpConnection.ConnectEstablished | src/muduo/net/TcpConnection.cc:323-332 | takes the establish step |
| TcpConnection.TcpConnection.TryWrite | src/muduo/net/TcpConnection.cc:149-173 | offers the message to the kernel only when nothing is waiting, and tells a count, a fault or neither |
| TcpConnection.TcpConnection.KeepRest | src/muduo/net/TcpConnection.cc:175-191 | appends what the kernel left, turns write interest on, and notifies of the high water mark |
| TcpConnection.TcpConnection.SendInLoop | src/muduo/net/TcpConnection.cc:139-192 | writes directly only when nothing is buffered, buffers the rest, turns write interest on, or gives up on a fault |
| TcpConnection.TcpConnection.Send | src/muduo/net/TcpConnection.cc:92-110 | in the loop thread: takes the send step, ignored unless connected; when connected and the write does not break, the stream is extended by the message |
| TcpConnection.TcpConnection.ShutdownInLoop | src/muduo/net/TcpConnection.cc:205-213 | shuts the write half unless output is still being written |
| TcpConnection.TcpConnection.Shutdown | src/muduo/net/TcpConnection.cc:194-203 | in the loop thread: takes the shutdown step |
| TcpConnection.TcpConnection.ForceClose | src/muduo/net/TcpConnection.cc:239-247 | in the loop thread: takes the force-close step |
| TcpConnection.TcpConnection.EnterCall | src/muduo/net/TcpConnection.cc:92-269 | in another thread: the check of the state with which send, shutdown, forceClose and forceCloseWithDelay begin |
| TcpConnection.TcpConnection.ProceedCall | src/muduo/net/TcpConnection.cc:92-269 | in another thread: the set of the state, or the push to the loop that ends the call, as a step of its own |
| TcpConnection.TcpConnection.HandleClose | src/muduo/net/TcpConnection.cc:408-421 | takes the close step |
| TcpConnection.TcpConnection.HandleWrite | src/muduo/net/TcpConnection.cc:368-406 | takes the writable step: retrieves what was written, and on drain stops writing, notifies and completes a pending shutdown |
| TcpConnection.TcpConnection.RunQueued | src/muduo/net/TcpConnection.cc:100-107 | runs the next functor that the connection queued in its loop |
| LoopTheorems.StepInv | src/muduo/net/EventLoop.cc:103-134 | every interleaved step of the loop and of other threads keeps the invariant |
| LoopTheorems.NoLostWakeup | src/muduo/net/EventLoop.cc:160-171 | in every interleaving, a loop at poll with a functor pending will return from poll, or some thread is between its push and its wakeup, unless the loop thread queued that functor before loop() or while a batch was destroyed |
| LoopTheorems.NeverLostExactly | src/muduo/net/EventLoop.cc:103-134 | from any state reached before loop(), or between a batch and the next poll, going on to poll never leaves a functor pending at poll without a wakeup, in any continuation without further pushes of these two kinds, if and only if nothing is queued by then, or a wakeup is written or on its way |
| LoopTheorems.LostBeforeLoop | src/muduo/net/EventLoop.cc:160-171 | one functor queued by the loop thread before loop(): nothing will end the first poll but its timeout |
| LoopTheorems.LostAfterBatch | src/muduo/net/EventLoop.cc:254-269 | a functor holds an object whose destructor queues another, after the flag is cleared: nothing will end the next poll but its timeout |
| LoopTheorems.RunInQueueOrder | src/muduo/net/EventLoop.cc:254-269 | functors run in the order they were queued, none twice: executed, batch and pending make up the queue |
| LoopTheorems.QueuedDuringBatchWaits | src/muduo/net/EventLoop.cc:254-269 | a functor queued after the swap runs in a later iteration, never in the batch under way |
| LoopTheorems.BatchRunsAll | src/muduo/net/EventLoop.cc:254-269 | once the batch is being destroyed or the loop is back at poll, everything queued before the swap has run |
| LoopJournal.PushedThenRun | src/muduo/net/EventLoop.cc:160-269 | in every run, the functors that have run are the first of those the push steps of the list name, in their order, each in the iteration that ran it; the others are in the batch or pending |
| LoopJournal.WakeupsCounted | src/muduo/net/EventLoop.cc:160-252 | in every run, the eventfd holds the writes since it was last read, and the threads between push and write are those the steps say |
| EventLoop.EventLoop.PushPending | src/muduo/net/EventLoop.cc:162-165 | the push under the mutex: one more pending functor, the given one, at the end |
| EventLoop.EventLoop.Wakeup | src/muduo/net/EventLoop.cc:234-242 | adds one to the eventfd |
| EventLoop.EventLoop.QueueFromThread | src/muduo/net/EventLoop.cc:160-165 | the push half of queueInLoop in another thread: the functor is last of the pending, and the thread is about to wake the loop |
| EventLoop.EventLoop.WakeupFromThread | src/muduo/net/EventLoop.cc:167-170 | the wakeup half of queueInLoop in another thread |
| EventLoop.EventLoop.PushInLoopThread | src/muduo/net/EventLoop.cc:162-165 | the push half of queueInLoop in the loop thread |
| EventLoop.EventLoop.WakeFromLoopThread | src/muduo/net/EventLoop.cc:167-170 | the wakeup half, while functors run |
| EventLoop.EventLoop.QueueInLoopThread | src/muduo/net/EventLoop.cc:160-171 | queueInLoop in the loop thread, before loop(), in a handler, in a functor or on its destruction: it pushes, and wakes itself only from a functor |
| EventLoop.EventLoop.HandleRead | src/muduo/net/EventLoop.cc:244-252 | reading the eventfd resets it |
| EventLoop.EventLoop.RunFunctor | src/muduo/net/EventLoop.cc:264-267 | runs one functor, with everything it and other threads do meanwhile |
| EventLoop.EventLoop.SwapPending | src/muduo/net/EventLoop.cc:256-262 | sets the flag, lets other threads in, and takes all pending functors at once |
| EventLoop.EventLoop.DoPendingFunctors | src/muduo/net/EventLoop.cc:254-269 | for any behaviour of the functors, of their destructors and of other threads in between, runs exactly the functors pending at the swap, in order, and is the run of its steps |
| EventLoop.EventLoop.ReleaseFunctors | src/muduo/net/EventLoop.cc:268-269 | clears the flag and then destroys the functors, with everything that queues meanwhile |
| EventLoop.EventLoop.HandleEvents | src/muduo/net/EventLoop.cc:121-128 | the handlers of the reported channels, that of the wakeup channel among them or not |
| EventLoop.EventLoop.LoopOnce | src/muduo/net/EventLoop.cc:111-130 | one pass of the loop: poll, handlers, pending functors, as the run of its steps |
| EventLoop.EventLoop.Loop | src/muduo/net/EventLoop.cc:103-134 | any number of passes, with any interleaving of other threads, is the run of their steps from the call of loop() on |
| QueueTheorems.StepInv | src/muduo/base/BoundedBlockingQueue.h:30-54 | every put, take, retry and spurious wakeup keeps the invariant |
| QueueTheorems.RunsServe | src/muduo/base/BoundedBlockingQueue.h:30-54 | in every run items leave in the order they came and the size stays within capacity; while a taker is blocked the woken takers are at least as many as the items, and likewise for putters and free slots |
| QueueTheorems.NeverStuck | src/muduo/base/BoundedBlockingQueue.h:30-54 | with positive capacity no run ends with threads waiting on both sides and nobody woken |
| QueueTheorems.NeverStuckExactly | src/muduo/base/BoundedBlockingQueue.h:22-54 | that holds for every run if and only if the capacity is positive |
| QueueTheorems.StuckWithoutCapacity | src/muduo/base/BoundedBlockingQueue.h:22-54 | with capacity zero, a taker and a putter block each other |
| QueueRefinement.RefinesPlainQueue | src/muduo/base/BoundedBlockingQueue.h:30-54 | in every run the monitor holds and has handed out what a plain bounded queue would, offered each item at the put and at each retry; the threads inside put and take are those it turned down |
| BoundedBlockingQueue.BoundedBlockingQueue.TryPut | src/muduo/base/BoundedBlockingQueue.h:32-39 | one pass through the critical section of put: stores and signals a taker, or waits |
| BoundedBlockingQueue.BoundedBlockingQueue.TryTake | src/muduo/base/BoundedBlockingQueue.h:44-53 | one pass through the critical section of take: removes the front and signals a putter, or waits |
| BoundedBlockingQueue.BoundedBlockingQueue.Put | src/muduo/base/BoundedBlockingQueue.h:30-40 | the whole of put, waiting as often as needed while other threads do anything: it is the run of its passes and theirs, and its item is the last one put |
| BoundedBlockingQueue.BoundedBlockingQueue.Take | src/muduo/base/BoundedBlockingQueue.h:42-54 | the whole of take, in the same way: it returns the last item taken |
| LoggerTheorems.StepInv | src/muduo/base/AsyncLogging.cc:34-133 | every step of producers and backend meets the source's assertions and keeps the invariant |
| LoggerTheorems.RecyclingNeverRunsDry | src/muduo/base/AsyncLogging.cc:71-131 | in every run all assertions of the backend loop hold: both spares are there and empty, and the batch is large enough to refill them |
| LoggerTheorems.LinesConserved | src/muduo/base/AsyncLogging.cc:34-133 | what left the batch, what is being written, what was trimmed, the queued buffers and the current one make up all accepted lines in order, in every interleaving |
| LoggerTheorems.EveryByteReachesTheFile | src/muduo/base/AsyncLogging.cc:34-113 | after every run, the file apart from notices, the unwritten batch, the queued buffers and the current one are the appended lines byte for byte, if and only if every line is under 4,000,000 bytes and no batch came to be over 25 buffers |
| LoggerTheorems.TrimLoses | src/muduo/base/AsyncLogging.cc:92-101 | with short lines no queued buffer is empty, so trimming a batch always loses some byte |
| LoggerTheorems.FitLosesNothing | src/muduo/base/AsyncLogging.cc:92-102 | as long as batches fit, no run drops a chunk |
| LoggerTheorems.AppendedExactly | src/muduo/base/AsyncLogging.cc:34-56 | in every run, what the logger was given is the lines of the append calls, in order, each once |
| LoggerTheorems.RotatesExactly | src/muduo/base/AsyncLogging.cc:34-56 | a line goes into the current buffer exactly when a byte would be left over, otherwise into a fresh one, and nowhere if too long for that |
| LoggerTheorems.NoticeExactly | src/muduo/base/AsyncLogging.cc:92-101 | a batch over 25 buffers, and nothing else, gets a notice in the file, and keeps its first two buffers |
| AsyncLogging.AsyncLogging.constructor | src/muduo/base/AsyncLogging.cc:14-32 | starts with two empty buffers |
| AsyncLogging.AsyncLogging.Append | src/muduo/base/AsyncLogging.cc:34-56 | takes the append step: into the current buffer if it fits, otherwise rotates buffers first |
| AsyncLogging.AsyncLogging.CheckBuffers | src/muduo/base/AsyncLogging.cc:71-80 | waits exactly when no buffer is full, otherwise swaps |
| AsyncLogging.AsyncLogging.WakeUp | src/muduo/base/AsyncLogging.cc:79-88 | any end of the timed wait swaps |
| AsyncLogging.AsyncLogging.SwapBuffers | src/muduo/base/AsyncLogging.cc:81-87 | the swap under the mutex |
| AsyncLogging.AsyncLogging.TrimBatch | src/muduo/base/AsyncLogging.cc:90-101 | a batch over 25 buffers is cut to its first two, and the notice goes to the file |
| AsyncLogging.AsyncLogging.WriteBatch | src/muduo/base/AsyncLogging.cc:103-107 | writes the buffers of the batch in order, each whole |
| AsyncLogging.AsyncLogging.RecycleBuffers | src/muduo/base/AsyncLogging.cc:109-131 | refills the missing spares from the batch, emptied |
| Endian.IntRoundTrip | src/muduo/net/Endian.h:29-57 | every integer of every width reads back from its big-endian bytes |
| Endian.BytesRoundTrip | src/muduo/net/Endian.h:29-57 | every byte string is the encoding of the integer it reads as |
| Endian.BigEndian | src/muduo/net/Endian.h:29-42 | byte k of an integer of any width is its digit to base 256, most significant first, two's complement for negative ones |
| Endian.ReadBigEndian | src/muduo/net/Endian.h:44-57 | the integer read from bytes has them as those digits |
| Endian.MixedWidthsReadBack | src/muduo/net/Buffer.h:224-323 | integers of mixed widths written in a row read back in that order, whatever follows |
| NetBuffer.Buffer.constructor | src/muduo/net/Buffer.h:48-56 | starts empty with eight prependable bytes |
| NetBuffer.Buffer.RetrieveAll | src/muduo/net/Buffer.h:153-157 | empties the buffer and regains the prependable bytes |
| NetBuffer.Buffer.Retrieve | src/muduo/net/Buffer.h:113-124 | drops exactly the first bytes |
| NetBuffer.Buffer.RetrieveAsString | src/muduo/net/Buffer.h:164-170 | returns the first bytes and drops them |
| NetBuffer.Buffer.MoveToFront | src/muduo/net/Buffer.h:397-408 | the overlapping copy keeps the content |
| NetBuffer.Buffer.MakeSpace | src/muduo/net/Buffer.h:390-409 | always yields the room asked for and keeps the content; it grows exactly when writable and prependable bytes fall short, and otherwise has more than eight prependable bytes |
| NetBuffer.Buffer.EnsureWritableBytes | src/muduo/net/Buffer.h:194-201 | gives room without changing the content, and touches nothing when there is room |
| NetBuffer.Buffer.HasWritten | src/muduo/net/Buffer.h:209-213 | makes bytes already written readable |
| NetBuffer.Buffer.Append | src/muduo/net/Buffer.h:177-192 | the content followed by the data |
| NetBuffer.Buffer.Unwrite | src/muduo/net/Buffer.h:215-219 | drops exactly the last bytes |
| NetBuffer.Buffer.Prepend | src/muduo/net/Buffer.h:354-360 | the data followed by the content |
| NetBuffer.Buffer.Shrink | src/muduo/net/Buffer.h:362-369 | keeps the content in a fresh allocation with the reserve left over |
| NetBuffer.Buffer.ReadFd | src/muduo/net/Buffer.cc:25-57 | the two-part scatter read appends what was received, across the boundary; a failed read changes nothing |
| NetBuffer.Buffer.AppendInt | src/muduo/net/Buffer.h:224-249 | appends the bytes of an integer, each its digit to base 256, most significant first |
| NetBuffer.Buffer.PeekInt | src/muduo/net/Buffer.h:290-323 | the integer whose encoding is the first bytes |
| NetBuffer.Buffer.ReadInt | src/muduo/net/Buffer.h:254-284 | splits the encoding of the integer off the front |
| NetBuffer.Buffer.PrependInt | src/muduo/net/Buffer.h:328-352 | puts the encoding of an integer in front |
| NetBuffer.Buffer.Run | src/muduo/net/Buffer.h:113-369 | every sequence of appends, prepends, retrieves, unwrites, shrinks and reads acts as on a plain byte sequence, up to the first operation whose own assertion fails |
| Adler.OneByteDetected | src/muduo/net/protobuf/ProtobufCodecLite.cc:178-182 | changing any one byte changes the Adler-32 sum of section 2.2 of RFC 1950 |
| Adler.TranspositionDetected | src/muduo/net/protobuf/ProtobufCodecLite.cc:178-182 | swapping two different neighbouring bytes changes it too |
| Adler.AdlerClosed | src/muduo/net/protobuf/ProtobufCodecLite.cc:178-182 | the low half is one plus the sum of the bytes, the high half their number plus their weighted sum, both modulo 65521, as in section 2.2 of RFC 1950 |
| Framing.HeadOf | src/muduo/net/protobuf/ProtobufCodecLite.cc:58-97 | each pass that goes on consumes at least a minimal frame |
| Framing.HeadStable | src/muduo/net/protobuf/ProtobufCodecLite.cc:58-97 | once the head of the buffer is decided, later bytes do not change the decision |
| Framing.DecodeResumes | src/muduo/net/protobuf/ProtobufCodecLite.cc:58-97 | decoding some bytes and then the rest delivers what decoding all of them does |
| Framing.CutsDoNotMatter | src/muduo/net/protobuf/ProtobufCodecLite.cc:58-97 | messages, remainder and error depend only on the concatenated bytes, not on how any stream is cut into reads |
| Framing.ErrorIsFinal | src/muduo/net/protobuf/ProtobufCodecLite.cc:65-92 | after an error at the head nothing more is ever delivered or consumed |
| Framing.WaitsExactly | src/muduo/net/protobuf/ProtobufCodecLite.cc:58-97 | the reader waits exactly when less than a minimal frame is there, or a length within the limits announces more than is there |
| Framing.BadLengthRefused | src/muduo/net/protobuf/ProtobufCodecLite.cc:62-69 | a length field outside the limits, on either side, is refused at once and nothing is consumed |
| Framing.FrameOutcome | src/muduo/net/protobuf/ProtobufCodecLite.cc:58-97 | a whole frame of any body is skipped when not wanted, refused for its checksum, its tag or its payload in that order, and delivered otherwise |
| Framing.FramesRoundTrip | src/muduo/net/protobuf/ProtobufCodecLite.cc:42-97 | any list of payloads within the limit, framed in a row, decodes to exactly those the raw callback wants, with nothing left |
| Framing.FrameRoundTripExactly | src/muduo/net/protobuf/ProtobufCodecLite.cc:62-69 | a frame of any size that was written, with its length wrapped into 32 bits, comes back if and only if its body is within 64 MiB |
| Framing.OversizeRefused | src/muduo/net/protobuf/ProtobufCodecLite.cc:62-69 | every frame beyond the limit and below 4 GiB is refused with an invalid length, wrapped or not, and stays in the buffer |
| Framing.DeliveredWithinLimit | src/muduo/net/protobuf/ProtobufCodecLite.cc:58-97 | from any bytes, no message beyond the limit is ever delivered |
| Framing.ZerosRefused | src/muduo/net/protobuf/ProtobufCodecLite.cc:62-69 | 64 MiB of zeros behind a four-byte tag can be framed and are refused |
| Framing.WrongBodyRefused | src/muduo/net/protobuf/ProtobufCodecLite.cc:184-225 | a frame whose tag and payload have another Adler-32 sum gives a checksum error and delivers nothing |
| Framing.CorruptByteRefused | src/muduo/net/protobuf/ProtobufCodecLite.cc:178-225 | changing exactly one byte of tag or payload always gives a checksum error |
| ProtobufCodecLite.SerializeToBuffer | src/muduo/net/protobuf/ProtobufCodecLite.cc:104-125 | appends the payload through the writable area |
| ProtobufCodecLite.FillEmptyBuffer | src/muduo/net/protobuf/ProtobufCodecLite.cc:42-56 | for a payload of any size leaves exactly its frame: the length cast to 32 bits, tag, payload, checksum |
| ProtobufCodecLite.ParseBody | src/muduo/net/protobuf/ProtobufCodecLite.cc:192-225 | a checksum error exactly for an invalid checksum; success only for the tag, a payload and its checksum |
| ProtobufCodecLite.ReadHead | src/muduo/net/protobuf/ProtobufCodecLite.cc:62-95 | reads the decision about the head off the buffer without consuming it |
| ProtobufCodecLite.OnMessage | src/muduo/net/protobuf/ProtobufCodecLite.cc:58-97 | the loop delivers, leaves and reports exactly what the decoder of the buffer's bytes says, and ends |
| PollerRuns.PollersWatchTheRequested | src/muduo/net/poller/PollPoller.cc:75-140 | after any updates and removals both machines watch exactly the non-empty masks last asked for |
| PollerRuns.PollersAgreeExactly | src/muduo/net/poller/EPollPoller.cc:107-149 | the two watch the same descriptors and masks all along, empty ones included, if and only if no update repeats an empty mask on an ignored descriptor |
| PollerRuns.DisabledTwice | src/muduo/net/poller/EPollPoller.cc:113-133 | a descriptor disabled twice is ignored by poll(2) and held by epoll(4) with an empty mask |
| Pollers.RunBoth | src/muduo/net/poller/PollPoller.cc:75-140 | for every list of updates and removals, up to the first removal of a channel that is not disabled, both pollers stay valid and follow their machines; the entries passed to poll(2) and the interest list of epoll(4) come to the same non-empty masks, those last asked for |
| PollPoller.SwapLinked | src/muduo/net/poller/PollPoller.cc:129-138 | swapping an entry with the last keeps every back-index exact and every interest, negated descriptors included |
| PollPoller.SwapRemoveLinked | src/muduo/net/poller/PollPoller.cc:124-139 | swap-remove takes out exactly one interest and keeps all back-indices exact |
| PollPoller.PollPoller.UpdateChannel | src/muduo/net/poller/PollPoller.cc:75-110 | takes the update step of the poll(2) machine: appended when new, ignored by negation when updated to an empty mask |
| PollPoller.PollPoller.RemoveChannel | src/muduo/net/poller/PollPoller.cc:112-140 | takes the removal step, and leaves the index of the removed channel as it was |
| PollPoller.PollPoller.Run | src/muduo/net/poller/PollPoller.cc:75-140 | every list of operations, as far as removals are legal: back-indices stay exact, and the entries poll(2) does not ignore are exactly the watched descriptors with their masks |
| PollPoller.PollPoller.FillActiveChannels | src/muduo/net/poller/PollPoller.cc:55-73 | hands out, in order, the registered channel of each reported entry with what was reported there |
| EPollPoller.EPollPoller.UpdateChannel | src/muduo/net/poller/EPollPoller.cc:107-149 | takes the update step of the epoll(4) machine; adds only absent and modifies or deletes only present descriptors |
| EPollPoller.EPollPoller.RemoveChannel | src/muduo/net/poller/EPollPoller.cc:151-170 | takes the removal step, deletes only a present descriptor, and marks the channel new |
| EPollPoller.EPollPoller.Run | src/muduo/net/poller/EPollPoller.cc:107-192 | every such list of operations: the kernel holds exactly the watched descriptors, and no call to epoll_ctl adds a present or changes an absent one |
| EPollPoller.EPollPoller.FillActiveChannels | src/muduo/net/poller/EPollPoller.cc:89-105 | every reported pointer is a registered channel and receives its events, in order |
| Numerals.NumeralParses | src/muduo/base/LogStream.cc:39-60 | the numeral of every integer is canonical and parses back to it |
| Numerals.CanonicalNumeral | src/muduo/base/LogStream.cc:39-60 | every canonical decimal string is the numeral of the number it denotes |
| Numerals.MagnitudeValue | src/muduo/base/LogStream.cc:62-78 | decimal and hexadecimal digits are canonical and denote their number |
| Numerals.CanonicalMagnitude | src/muduo/base/LogStream.cc:62-78 | a canonical string of digits is how its own value is written |
| Numerals.MagnitudeLength | src/muduo/base/LogStream.cc:101-111 | a number has at most so many digits exactly when it is below that power of the base |
| Numerals.NumeralWidths | src/muduo/base/LogStream.cc:115-123 | no integer of up to 64 bits takes more than 20 characters, no address more than 16 digits |
| LogStream.LowDigit | src/muduo/base/LogStream.cc:31-32 | the table looked up by a truncated remainder gives the right digit for either sign |
| LogStream.Reverse | src/muduo/base/LogStream.cc:57-58 | the range is mirrored in place and nothing else changes |
| LogStream.Convert | src/muduo/base/LogStream.cc:39-60 | writes the numeral of any integer, the most negative included, and a terminator, keeping what is in front |
| LogStream.ConvertHex | src/muduo/base/LogStream.cc:62-78 | writes the hexadecimal numeral and a terminator, keeping what is in front |
| LogStream.FixedBuffer.Append | src/muduo/base/LogStream.h:39-47 | text goes in whole if a byte is left over, otherwise not at all |
| LogStream.FixedBuffer.Add | src/muduo/base/LogStream.h:55 | moves the cursor within the buffer |
| LogStream.FixedBuffer.Reset | src/muduo/base/LogStream.h:57 | empties the buffer |
| LogStream.LogStream.FormatInteger | src/muduo/base/LogStream.cc:115-123 | when 32 bytes are left, what is appended is canonical decimal and parses to the number, sign included; otherwise nothing is |
| LogStream.RenderDenotes | src/muduo/base/LogStream.cc:40-79 | each item is written as the one string that denotes it: the text, canonical decimal, or 0x and canonical hexadecimal |
| LogStream.LogStream.FormatPointer | src/muduo/base/LogStream.cc:173-185 | when 32 bytes are left, what is appended is 0x and canonical hexadecimal digits that denote the address; otherwise nothing is |
| LogStream.LogStream.AppendText | src/muduo/base/LogStream.h:39-57 | text goes in whole when a byte would be left over, and not at all otherwise |
| LogStream.LogStream.Output | src/muduo/base/LogStream.cc:115-185 | any chain of outputs leaves exactly what the stream function says |
| LogStream.NeverFull | src/muduo/base/LogStream.h:39-57 | no sequence of text, integer or pointer outputs brings the cursor to the end of the buffer |
| LogStream.NothingDropped | src/muduo/base/LogStream.h:39-47 | while 32 bytes stay free the buffer holds all outputs, whole and in order |

## Left out

- src/tcpmysql (cache, LRU list, time wheel): the code does not settle its intended behaviour.
- MySQL client calls, sockets, Acceptor, InetAddress, SocketsOps, FileUtil, GzipFile, ZlibStream, ProcessInfo: foreign calls and plumbing.
- Protobuf serialization: a payload is opaque bytes, and the parser and the raw callback are functions of the bytes they get.
- RpcChannel, RpcServer, CountDownLatch, Singleton, ThreadLocal, EventLoopThreadPool: only easy bookkeeping beyond what is here.
- Connector and TcpClient: their lifetime paths depend on the timing of a retry timer.
- Destruction of objects across threads, quit() and the end of loop(), lines still buffered when the logger stops.
- Floating-point output, the layout of a log line and of the notice written when a batch is trimmed, log-file rolling.
- Reading zone files; transitions and local-time types are given, and zone names are not modelled.
- gmtime_r and timegm are modelled by toUtcTime and fromUtcTime.
- 32-bit overflow of day arithmetic and the narrowing of day counts to int: dates and instants are unbounded.
- std::set, std::map and lower_bound on them are modelled as sorted sequences and maps.
- Timer objects are values in a map from addresses, so that deletion and reuse of an address can be stated; restart is an update of that map, and the interval is a real number.
- Failure of timerfd_settime, overflow of the eventfd counter, and failures of epoll_ctl other than for a descriptor on or off the list.
- The state of a connection is read and written by its threads one access at a time, in one order; calls in the loop thread are one step, since what another thread does in between them gives no outcome that some order of whole steps does not.
- The removal of a channel in connectDestroyed does not cut off its events or the functors still queued.
- ProtobufCodecLite.FillEmptyBuffer: the size of a message and the length given to zlib are unbounded, where the source has an int; the two differ only for a tag and payload of about 2 GiB, beyond the limit of the reader.
- forceCloseWithDelay is its check and its set of the state; its timer, which calls forceClose later, is not tied to the timer queue.
- runInLoop called in the loop thread runs its functor at once and is not a step of its own.
- Buffer search (findCRLF, findEOL), swap and the C-string overloads would only add easy members.
- The doubling of the event list in EPollPoller::poll, and what each handler does with the events of a channel.
