# GLBasics framework core, modelled in Dafny

GLBasics is a set of OpenGL ES 2.0 demos for Android. A small framework sits under the demos, and this project models its sequential core:

- **Screen lifecycle** (`Screen`, `screen.dfy`). The six lifecycle methods of a `Screen` are values of `Call`. Every call the framework makes is recorded as an `Event`: the receiving screen, the method, and the screen that `Game.screen` designated at that moment. `Disciplined` states the protocol a screen can rely on: `update` and `present` arrive only while the last `resume`, `pause` or `dispose` the screen received was `resume`, and `dispose` arrives only while it was `pause`. `resize` does not change that phase.
- **Game singleton, Java tree** (`BasicGame`, `basic_game.dfy`). It holds the current screen. `changeScreen` pauses and disposes the outgoing screen, then resumes the incoming one and calls `update(0)` on it. It never re-sizes the incoming screen, and it replaces the pointer last.
- **Game singleton, Kotlin tree** (`ResizingGame`, `resizing_game.dfy`). This variant also stores the surface size. `changeScreen` re-sizes the incoming screen with the stored size, between `resume` and `update(0)`.
- **Render loop** (`RenderLoop`, `render_loop.dfy`). The `Renderer` class has the five-value `GLGameState`, the `startTime` field, and the three surface callbacks plus `onPause`. `DrawFrame` is a pure function that gives what one frame does in each state. The class methods are proved equal to it. They are also proved to keep the screen discipline and the invariant that a running loop's current screen is resumed. The renderer addresses the Java-tree `Game`, which sits in the same source tree.
- **Vertex layout and buffer** (`VertexBuffer`, `vertex_buffer.dfy`). The shader mode decides the attribute flags, the stride and each attribute's float offset. The `FloatBuffer` is an array plus `position` and `limit`. `setVertices` (clear, put, flip) and `draw` are methods proved equal to the pure functions `Fill` and `BindAndDraw`. The exceptions that `FloatBuffer.put` and `FloatBuffer.position` can throw are modelled as outcomes.
- **Frame counter** (`FrameRate`, `frame_rate.dfy`). `FpsCounter.logFrame` counts frames and logs the count once a one-second window has passed. `frames` keeps Kotlin's 32-bit `Int` wrap-around.

Clock readings are parameters. The source reads `System.nanoTime()` twice in `onDrawFrame` and twice in `logFrame`, once for the comparison or delta and once for the new start time. Each of those steps therefore takes two readings (`RenderLoop.Reading` for a frame, `FrameRate.LogClock` for a logFrame). Screens are identified by a number (`ScreenId`), because the framework only passes screens around and calls their methods.

The render loop has five states: `INITIALIZED`, `RUNNING`, `PAUSED`, `FINISHED` and `IDLE`.

## Model

| member | source | states |
|---|---|---|
| `Screen.DisciplinedIff` | app/src/main/java/com/scaredeer/glbasics/framework/Screen.kt:12-18 | The lifecycle discipline, checked call by call from the end of the trace, holds exactly when every call in the trace was allowed for its receiver at that point (both directions) |
| `BasicGame.SwitchEvents` | app/src/main/java/com/scaredeer/glbasics/framework/Game.kt:9-16 | A switch is four calls, the first two pause and dispose on the outgoing screen; every call goes to the outgoing or the incoming screen while Game.screen still designates the outgoing one |
| `BasicGame.SwitchOrder` | app/src/main/java/com/scaredeer/glbasics/framework/Game.kt:9-16 | A switch is exactly four calls: pause and dispose on the outgoing screen, then resume and update(0) on the incoming one. None is a resize, and all are made while Game.screen still designates the outgoing screen |
| `BasicGame.SwitchCalls` | app/src/main/java/com/scaredeer/glbasics/framework/Game.kt:9-16 | Between distinct screens, the outgoing screen receives only pause then dispose, the incoming one only resume then update(0), and any other screen nothing |
| `BasicGame.SwitchKeepsDiscipline` | app/src/main/java/com/scaredeer/glbasics/framework/Game.kt:9-16 | A switch keeps a disciplined trace disciplined, leaves the incoming screen resumed and, if it is a different object, leaves the outgoing screen disposed |
| `BasicGame.Game.constructor` | app/src/main/java/com/scaredeer/glbasics/framework/Game.kt:7 | The game starts with the installed start screen and no calls made |
| `BasicGame.Game.ChangeScreen` | app/src/main/java/com/scaredeer/glbasics/framework/Game.kt:9-16 | The current screen becomes the incoming one, the trace grows by exactly the switch calls, discipline is kept, and the new current screen is resumed |
| `ResizingGame.SwitchEvents` | app/src/main/kotlin/com/scaredeer/glbasics/framework/Game.kt:18-26 | A switch is five calls, the first two pause and dispose on the outgoing screen; every call goes to the outgoing or the incoming screen while Game.screen still designates the outgoing one |
| `ResizingGame.SwitchOrder` | app/src/main/kotlin/com/scaredeer/glbasics/framework/Game.kt:18-26 | A switch is exactly five calls: pause and dispose on the outgoing screen, then resume, resize(width, height) and update(0) on the incoming one, all made before the pointer changes |
| `ResizingGame.SwitchCalls` | app/src/main/kotlin/com/scaredeer/glbasics/framework/Game.kt:18-26 | Between distinct screens, the outgoing screen receives only pause then dispose (no resume, update or present), the incoming one only resume, resize to the stored size, then update(0), and other screens nothing |
| `ResizingGame.SwitchKeepsDiscipline` | app/src/main/kotlin/com/scaredeer/glbasics/framework/Game.kt:18-26 | A switch keeps discipline, leaves the incoming screen resumed and a distinct outgoing screen disposed |
| `ResizingGame.ResizeKeepsDiscipline` | app/src/main/kotlin/com/scaredeer/glbasics/framework/Game.kt:12-16 | A resize is always allowed and changes no screen's phase |
| `ResizingGame.Game.constructor` | app/src/main/kotlin/com/scaredeer/glbasics/framework/Game.kt:7-10 | The game starts with the start screen, a stored size of 0 x 0 and no calls made |
| `ResizingGame.Game.OnSurfaceChanged` | app/src/main/kotlin/com/scaredeer/glbasics/framework/Game.kt:12-16 | Stores width and height, calls resize(width, height) on the current screen and nothing else, and keeps the current screen and every phase |
| `ResizingGame.Game.ChangeScreen` | app/src/main/kotlin/com/scaredeer/glbasics/framework/Game.kt:18-26 | The current screen becomes the incoming one, the stored width and height are unchanged, the trace grows by exactly the switch calls, and discipline is kept |
| `RenderLoop.DrawFrame` | app/src/main/java/com/scaredeer/glbasics/framework/Renderer.kt:63-92 | One frame moves PAUSED and FINISHED to IDLE and leaves every other state. It makes no call exactly in INITIALIZED and IDLE, disposes exactly in FINISHED, updates and presents exactly in RUNNING, and changes startTime only in RUNNING |
| `RenderLoop.RunningFrame` | app/src/main/java/com/scaredeer/glbasics/framework/Renderer.kt:70-75 | A running frame calls update with the time from startTime to the first clock reading, then present, stays RUNNING, and sets startTime to the second reading |
| `RenderLoop.PauseRequest` | app/src/main/java/com/scaredeer/glbasics/framework/Renderer.kt:97-102 | onPause requests FINISHED exactly when the activity is finishing, and PAUSED exactly when it is not |
| `RenderLoop.PauseHandshake` | app/src/main/java/com/scaredeer/glbasics/framework/Renderer.kt:76-102 | After onPause, the next frame calls pause (and then dispose only when finishing), parks the loop in IDLE and keeps startTime |
| `RenderLoop.DeltasAddUp` | app/src/main/java/com/scaredeer/glbasics/framework/Renderer.kt:70-75 | Running frames stay RUNNING. The deltas they hand to update, plus the time between each frame's two clock readings, add up to exactly the time from the first startTime to the last |
| `RenderLoop.QuietWhileIdle` | app/src/main/java/com/scaredeer/glbasics/framework/Renderer.kt:63-92 | In INITIALIZED or IDLE, any number of frames makes no screen call and changes neither state nor startTime |
| `RenderLoop.DrawFrameKeepsDiscipline` | app/src/main/java/com/scaredeer/glbasics/framework/Renderer.kt:63-92 | Every frame keeps the screen discipline (update and present only while the screen's last resume/pause/dispose was resume, dispose only while it was pause), and a running frame leaves the current screen resumed |
| `RenderLoop.Renderer.constructor` | app/src/main/java/com/scaredeer/glbasics/framework/Renderer.kt:24-27 | A new renderer is INITIALIZED, with startTime taken from the clock |
| `RenderLoop.Renderer.OnSurfaceCreated` | app/src/main/java/com/scaredeer/glbasics/framework/Renderer.kt:42-52 | Whatever the prior state, the renderer becomes RUNNING, calls resume on the current screen exactly once and nothing else, and resets startTime to the clock |
| `RenderLoop.Renderer.OnSurfaceChanged` | app/src/main/java/com/scaredeer/glbasics/framework/Renderer.kt:55-61 | Forwards width and height unchanged to the current screen's resize, and changes neither state nor startTime |
| `RenderLoop.Renderer.OnDrawFrame` | app/src/main/java/com/scaredeer/glbasics/framework/Renderer.kt:63-92 | New state, startTime and the calls on the current screen are those DrawFrame gives for the state observed. Discipline and the running-means-resumed invariant are kept |
| `RenderLoop.Renderer.OnPause` | app/src/main/java/com/scaredeer/glbasics/framework/Renderer.kt:94-102 | Sets the state to FINISHED when finishing and to PAUSED otherwise, and touches nothing else |
| `VertexBuffer.FlagsOf` | app/src/main/java/com/scaredeer/glbasics/framework/gl/Vertices.kt:24-38 | hasColor holds exactly for COLORED and COLORED_TEXTURE, and hasTextCoordinates exactly for TEXTURE and COLORED_TEXTURE |
| `VertexBuffer.Bindings` | app/src/main/java/com/scaredeer/glbasics/framework/gl/Vertices.kt:74-121 | Draw binds position first, at float 0, then one binding per flag that holds, and never binds an attribute twice. Color comes second, at float 2; texture coordinates come last, at float 2 + 4 when there is color and at float 2 otherwise |
| `VertexBuffer.VertexSize` | app/src/main/java/com/scaredeer/glbasics/framework/gl/Vertices.kt:40-43 | The stride in bytes is four times the number of floats the bound attributes cover together |
| `VertexBuffer.VertexSizes` | app/src/main/java/com/scaredeer/glbasics/framework/gl/Vertices.kt:40-43 | The stride is 24 bytes for COLORED, 16 for TEXTURE and 32 for COLORED_TEXTURE |
| `VertexBuffer.BindingsTileVertex` | app/src/main/java/com/scaredeer/glbasics/framework/gl/Vertices.kt:74-121 | Position is bound first at float 0, and each next attribute starts where the previous one ends. The last ends at stride/4, so the windows never overlap and each fits in one vertex |
| `VertexBuffer.BindingsFollowFlags` | app/src/main/java/com/scaredeer/glbasics/framework/gl/Vertices.kt:61-72 | Draw binds color iff hasColor and texture coordinates iff hasTextCoordinates (both directions) |
| `VertexBuffer.Capacity` | app/src/main/java/com/scaredeer/glbasics/framework/gl/Vertices.kt:45-47 | The buffer's float capacity is never negative for a non-negative size and count, and, with a stride that is a whole number of floats, holds exactly the allocated bytes |
| `VertexBuffer.CapacityPerVertex` | app/src/main/java/com/scaredeer/glbasics/framework/gl/Vertices.kt:45-47 | The buffer holds exactly verticesCount times one vertex's floats |
| `VertexBuffer.BindAndDraw` | app/src/main/java/com/scaredeer/glbasics/framework/gl/Vertices.kt:61-121 | A draw that gets through makes two GL calls per attribute and ends with the draw call carrying primitive, first and count. A draw that throws stops before binding all attributes |
| `VertexBuffer.DrawWithinLimit` | app/src/main/java/com/scaredeer/glbasics/framework/gl/Vertices.kt:61-121 | Draw reaches the draw call iff every attribute offset lies within the buffer limit. It then binds every attribute in order with the stride and draws once with primitive, first and count unchanged. Otherwise it never draws |
| `VertexBuffer.Fill` | app/src/main/java/com/scaredeer/glbasics/framework/gl/Vertices.kt:50-54 | setVertices, whether it succeeds or throws, keeps the buffer's capacity and leaves position 0 with the limit within the capacity |
| `VertexBuffer.FillSpec` | app/src/main/java/com/scaredeer/glbasics/framework/gl/Vertices.kt:50-54 | setVertices succeeds iff the slice exists and fits the capacity. It then leaves position 0, limit = length, the slice at the front and the rest unchanged. On failure the contents are unchanged and the buffer is cleared |
| `VertexBuffer.FillIdempotent` | app/src/main/java/com/scaredeer/glbasics/framework/gl/Vertices.kt:50-54 | Repeating setVertices with the same arguments yields the same outcome and buffer state |
| `VertexBuffer.FillToCapacity` | app/src/main/java/com/scaredeer/glbasics/BlendingTriangleStripScreen2.kt:99-121 | Filling a buffer in any state (fresh, or after a draw) from offset 0 with one vertex's floats per vertex (as the demos do) succeeds and fills the buffer exactly to capacity, and a draw afterwards reaches the draw call |
| `VertexBuffer.Vertices.constructor` | app/src/main/java/com/scaredeer/glbasics/framework/gl/Vertices.kt:24-48 | Flags and stride follow the mode, the capacity is the allocated bytes read as floats, and the fresh buffer is zeroed and open to its capacity |
| `VertexBuffer.Vertices.SetVertices` | app/src/main/java/com/scaredeer/glbasics/framework/gl/Vertices.kt:50-54 | The outcome and the new buffer state are those Fill gives, and the buffer invariant 0 <= position <= limit <= capacity is kept |
| `VertexBuffer.Vertices.Draw` | app/src/main/java/com/scaredeer/glbasics/framework/gl/Vertices.kt:61-121 | The GL calls made, the buffer position left behind and whether the draw call was reached are those BindAndDraw gives |
| `FrameRate.WrapInt` | app/src/main/java/com/scaredeer/glbasics/framework/gl/FpsCounter.kt:18 | Kotlin Int arithmetic: the result is in Int range, equals its argument in range, and wraps INT_MAX + 1 to INT_MIN |
| `FrameRate.FrameStep` | app/src/main/java/com/scaredeer/glbasics/framework/gl/FpsCounter.kt:17-24 | One logFrame logs at most one value, and logs exactly when a second has passed since the window opened. It then opens a new window at the second clock reading with no frames; otherwise the window start is kept. The count stays a Kotlin Int |
| `FrameRate.FrameStepCases` | app/src/main/java/com/scaredeer/glbasics/framework/gl/FpsCounter.kt:17-24 | Within the one-second window, logFrame adds one frame and changes nothing else. Once the window is over, it logs the count including this frame, then sets frames to 0 and startTime to the second clock reading |
| `FrameRate.ResetLogsAtLeastOne` | app/src/main/java/com/scaredeer/glbasics/framework/gl/FpsCounter.kt:18-21 | A non-negative count stays non-negative, and a logged count is at least one because the increment precedes the check |
| `FrameRate.WrapsAtIntMax` | app/src/main/java/com/scaredeer/glbasics/framework/gl/FpsCounter.kt:15-18 | A count at INT_MAX that does not reset wraps to INT_MIN |
| `FrameRate.EveryFrameCountedOnce` | app/src/main/java/com/scaredeer/glbasics/framework/gl/FpsCounter.kt:17-24 | Over any run in which no window reaches INT_MAX frames (`NoWrap`), however long, the logged counts plus the open window's count equal the frames seen. The count never goes negative, and every logged count is at least one |
| `FrameRate.ShortRunNoWrap` | app/src/main/java/com/scaredeer/glbasics/framework/gl/FpsCounter.kt:17-24 | A run shorter than INT_MAX minus the current count never wraps, even without a reset |
| `FrameRate.ResettingRunNoWrap` | app/src/main/java/com/scaredeer/glbasics/framework/gl/FpsCounter.kt:17-24 | A run in which every logFrame closes its window never wraps, whatever its length |
| `FrameRate.FpsCounter.constructor` | app/src/main/java/com/scaredeer/glbasics/framework/gl/FpsCounter.kt:14-15 | A new counter has frames = 0 and a window starting at the clock reading |
| `FrameRate.FpsCounter.LogFrame` | app/src/main/java/com/scaredeer/glbasics/framework/gl/FpsCounter.kt:17-24 | From any state, startTime, frames and the log move as FrameStep gives, and frames stays a Kotlin Int |

## Left out

- The lock and condition variable in `Renderer.onPause` and `onDrawFrame` (Renderer.kt:25-26, 66-68, 79-82, 87-90, 103-109) are a two-thread rendezvous. `OnPause` only assigns the state, and `PauseHandshake` states the effect of the wait: the next frame brings the loop to IDLE.
- GL driver calls are left out: `glViewport` in `onSurfaceChanged`, shader compilation and linking, textures, and attribute locations. `Vertices.draw` records its GL calls as trace values naming the attribute, not the shader's location for it.
- Logging (`Log.v`, `Log.d`) is left out, except that the values `FpsCounter` logs are kept in a ghost log.
- Matrices, per-screen vertex coordinates, `Xanadu` (float physics and `java.util.Random`), the individual demo screens, `MainActivity` and the build configuration are not part of this model. What a screen does inside its lifecycle methods is not modelled either.
- `System.nanoTime()` is replaced by clock parameters.
- RenderLoop.DrawFrame: nanosecond deltas are unbounded integers. The 64-bit `Long` wrap-around of `nanoTime` differences is not modelled, because it needs centuries of uptime.
- FrameRate.FrameStep: the clock difference `checkedAt - startTime` is an unbounded integer. The 64-bit `Long` wrap-around of the `nanoTime` difference (FpsCounter.kt:19) is not modelled, for the same reason as in `DrawFrame`.
- FrameRate.EveryFrameCountedOnce: holds for runs in which no single window reaches INT_MAX (2^31 - 1) frames (`NoWrap`); the length of the run is not bounded. `WrapsAtIntMax` shows that a window reaching INT_MAX frames makes the count go negative.
- VertexBuffer.Vertices.constructor: takes a non-negative vertex count and multiplies it by the stride as an unbounded integer. In the source, `vertexSize * verticesCount` (Vertices.kt:45) is a Kotlin `Int` product. For large counts it wraps (from 2^26 vertices with COLORED_TEXTURE, whose stride is 32 bytes): to 0 (capacity 0) for COLORED_TEXTURE with 2^27 vertices, or to a negative size, for which `ByteBuffer.allocateDirect` throws `IllegalArgumentException`. Neither the wrap nor that exception, nor the one for a negative count, is modelled. The demos always pass 4.
- VertexBuffer.Capacity: the byte count is not wrapped to a Kotlin `Int`; see the line above.
- Float values are copied as raw 32-bit patterns. Native byte order, and the `FloatBuffer` mark, are not modelled.
- The Kotlin-tree `Game` is modelled on its own, with no renderer calling it. The renderer modelled here calls the current screen's `resize` directly and never `Game.onSurfaceChanged`. With the Kotlin `Game`, the stored size would therefore stay 0 x 0 unless something else calls it.
- The empty branch for INITIALIZED in `onSurfaceCreated` (Renderer.kt:43-47) has no effect and is not modelled.
