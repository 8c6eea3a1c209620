# Chat rooms and 2D geometry, modelled in Dafny

This project models the two small JavaScript modules of the repository.

- **Chat** (`chat.dfy`, from `complex_code_example.js`) covers chat messages, users and chat rooms. It also covers the client's global state: the message log across all rooms and the logged-in user.
  - `Chatroom.sendMessage` accepts a text of at most 200 characters. It stores a `ChatMessage` from the current user in the room's history and in the global log, then broadcasts it.
  - `Chatroom.join` accepts a user whose name has at most 20 characters. It links the user and the room both ways.
  - `Chatroom.leave` takes the first roster entry for the user out of the roster, and nothing else.
  - The globals are fields of a `Session` object that is passed in.
  - The broadcast's HTTP POST is modelled as appending its JSON payload to `Session.outbox`.
  - The send time is a parameter.
- **Geometry** (`geometry.dfy`, from `complex_code.js`) covers points, vectors and line segments over exact reals.
  - `Vector` is a value type with `add`, `subtract`, `dotProduct` and `crossProduct`.
  - `Point` is a mutable class with `moveBy`.
  - `LineSegment` keeps references to its two `Point`s and a snapshot of `end - start` taken at construction. The snapshot goes stale when an endpoint is later moved.
  - `containsPoint` is modelled as written. A corrected version sits beside it (see Findings).

Products of coordinates are written with a named `Mul` so that the solver treats each product as one term. No square root is taken anywhere.

`containsPoint` tests `dot > length`. For a non-negative `dot` this is the same test as `dot * dot > squared length`. The model uses the squared form, and `BeyondLength` proves that the two forms agree for every non-negative length whose square is the squared length.

## Model

| member | source | states |
|---|---|---|
| `Chat.PayloadOf` | complex_code_example.js:77-82 | The broadcast payload holds the stored message unchanged (username, text, timestamp), tagged with the room name. It is the only payload with that property. |
| `Chat.IndexOf` | complex_code_example.js:69 | `indexOf` gives -1 exactly when the user is absent. Otherwise it gives a position holding the user, with no earlier occurrence. |
| `Chat.RemoveFirst` | complex_code_example.js:68-73 | Removing the first occurrence leaves an absent user's list unchanged. Otherwise it shortens the list by one. |
| `Chat.RemoveFirstMultiset` | complex_code_example.js:68-73 | Removing the first occurrence takes exactly one copy of the user out of the list, or none when the user is absent (multiset difference). |
| `Chat.SpliceAtIndexOf` | complex_code_example.js:69-72 | `splice(indexOf(user), 1)` is exactly the removal of the first occurrence. |
| `Chat.AppendThenRemoveFirst` | complex_code_example.js:63-72 | Appending a user and then removing its first occurrence keeps the length and the multiset of the list. The list comes back unchanged when the user was not on it before. |
| `Chat.Session.constructor` | complex_code_example.js:12-14 | The initial global state: no current user and an empty message log. Nothing has been broadcast yet. |
| `Chat.User.constructor` | complex_code_example.js:29-32 | A new user has the given name and no chat rooms. |
| `Chat.User.JoinChatroom` | complex_code_example.js:34-36 | Appends the room to the end of the user's room list, with no duplicate check. The name is unchanged. |
| `Chat.Chatroom.constructor` | complex_code_example.js:41-45 | A new room has the given name, no messages and no users. |
| `Chat.Chatroom.SendMessage` | complex_code_example.js:47-57 | A text longer than 200 characters leaves the room history, the global log and the broadcast record unchanged. Otherwise exactly one message (current user's name, text, given timestamp) is appended to both lists, and its payload is broadcast once. The room name, the roster and the current user never change. |
| `Chat.Chatroom.BroadcastMessage` | complex_code_example.js:75-94 | Exactly one payload, built from the room name and the message, is added to the broadcast record. Nothing else in the session changes. |
| `Chat.Chatroom.Join` | complex_code_example.js:59-66 | A user name longer than 20 characters changes neither list. Otherwise the user goes onto the end of the roster and the room onto the end of the user's list. The room's name and messages never change. |
| `Chat.Chatroom.Leave` | complex_code_example.js:68-73 | The roster loses its first occurrence of the user, or stays as it is if the user is absent. The user's room list, the room's name and its messages are untouched. |
| `Chat.JoinThenLeave` | complex_code_example.js:59-73 | After a valid join followed by a leave, the roster has its former size and elements, and is exactly restored when the user was not on it. The user's room list still holds the room. |
| `Geometry.SubtractUndoesAdd` | complex_code.js:39-46 | `Subtract(u, v)` is the one vector that gives back `u` when `v` is added to it with `Add`. |
| `Geometry.AddCommutative` | complex_code.js:39-41 | `Add` (`Vector.add`) is component-wise and commutative. |
| `Geometry.SubtractAntisymmetric` | complex_code.js:44-46 | `Subtract` (`Vector.subtract`): `subtract(u, v)` is the negation of `subtract(v, u)`, and `subtract(v, v)` is the zero vector. |
| `Geometry.DotSymmetric` | complex_code.js:49-51 | `Dot` (`Vector.dotProduct`) is symmetric. |
| `Geometry.DotSelf` | complex_code.js:34-36 | The squared length `x*x + y*y` under the vector length's square root is non-negative. It is zero only for the zero vector. |
| `Geometry.CrossAntisymmetric` | complex_code.js:54-56 | `Cross` (`Vector.crossProduct`) is antisymmetric, and `crossProduct(v, v)` is 0. |
| `Geometry.Point.constructor` | complex_code.js:7-10 | A new point has the given coordinates. |
| `Geometry.Point.SquaredDistanceTo` | complex_code.js:13-17 | The quantity under `distanceTo`'s square root is non-negative. It is zero exactly when the two points coincide. |
| `Geometry.SquaredDistanceSymmetric` | complex_code.js:13-17 | The squared distance is symmetric and is 0 from a point to itself. |
| `Geometry.Point.MoveBy` | complex_code.js:20-23 | The point moves by `(dx, dy)`, and no other object changes. |
| `Geometry.LineSegment.constructor` | complex_code.js:61-65 | The segment keeps the two given Point references, and its vector is `end - start` at construction time. |
| `Geometry.MoveEndPoint` | complex_code.js:61-65 | Moving the end point after construction leaves the segment's vector as it was. The vector then no longer equals `end - start`, unless the move is zero or both endpoints are the same Point object. |
| `Geometry.MoveStartPoint` | complex_code.js:61-65 | Moving the start point after construction leaves the segment's vector as it was. The vector then no longer equals `end - start`, unless the move is zero or both endpoints are the same Point object. |
| `Geometry.StaleAfterMove` | complex_code.js:20-65 | A segment from (0,0) to (1,0) whose end point is then moved to (2,0) keeps the vector (1,0), which no longer equals `end - start`. |
| `Geometry.LineSegment.ContainsPoint` | complex_code.js:73-83 | As written, the result is false whenever the dot product is negative or the cross product's magnitude is at least `Number.EPSILON`. The start point is always contained. |
| `Geometry.ContainsPointLengthForm` | complex_code.js:73-83 | For every point, `ContainsPoint` is the source's test with the length itself as the bound: false when the dot product is negative or exceeds the length, otherwise whether the cross product's magnitude is below `Number.EPSILON`. |
| `Geometry.DegenerateContainsEverything` | complex_code.js:60-83 | As written, a segment built from two coinciding points contains every point. |
| `Geometry.BeyondLength` | complex_code.js:77 | For a non-negative dot product, "exceeds the length" and "its square exceeds the squared length" are the same test. |
| `Geometry.ContainsPointAsWritten` | complex_code.js:73-83 | As written, a point at parameter t on the segment's line is accepted exactly when `0 <= t` and `t * length <= 1`. So a segment longer than 1 accepts only the part with `t <= 1 / length` and rejects its own end point. A segment longer than 2 rejects most of itself. |
| `Geometry.LineSegment.ContainsPointIntended` | complex_code.js:73-83 | With the bound taken as the squared length, the start point is always contained. A segment of length zero contains exactly its start point. |
| `Geometry.ContainsPointIntendedOnLine` | complex_code.js:73-83 | With the squared-length bound, a point at parameter t on a non-degenerate segment's line is accepted exactly when `0 <= t <= 1`. |
| `Geometry.UsageExample` | complex_code.js:87-92 | For the segment (0,0)-(5,5) and the point (2,2), the code as written answers false and the corrected test answers true. |

## Left out

- The network. `fetch` in `broadcastMessage` (complex_code_example.js:84-93), `connectToServer` and `initialize` (complex_code_example.js:100-123) are asynchronous requests to a remote endpoint. Only the payload that would be posted is recorded.
- The DOM and event wiring: `renderUI`, `setupEventListeners`, `login`, the global `joinChatroom` and `sendMessage`, and the entry point (complex_code_example.js:126-208). This is user-interface code. `renderUI` and `joinChatroom` also read `activeChatrooms`, which is never declared, so they fail at run time. No meaning is given to them here.
- The global `activeChatroom` (complex_code_example.js:13). Only that driver code uses it, so `Session` does not hold it.
- `console.error` and `console.log`. A rejected send or join shows only as "nothing changed".
- The clock (`new Date().getTime()`, complex_code_example.js:51). The timestamp is a parameter of `SendMessage`.
- Chat.Chatroom.SendMessage: requires a current user whenever the text is short enough. The source throws a TypeError at `currentUser.username` when no one is logged in, and the model does not follow that path.
- Chat.Chatroom.SendMessage: counts a text's length in Unicode scalar values, but JavaScript's `length` counts UTF-16 code units. The two differ for characters outside the Basic Multilingual Plane.
- Chat.Chatroom.Join: counts the user name's length in Unicode scalar values rather than UTF-16 code units, as above.
- IEEE-754 doubles. Coordinates are exact reals, so rounding, overflow, NaN and infinities are not modelled.
- `Math.sqrt`. `Point.distanceTo` is modelled only through the squared distance under its root, and `Vector.length` and `LineSegment.length` (complex_code.js:34-36, 68-70) only through the squared length.
- The usage example's `console.log` of the segment length (complex_code.js:91).
- Vector objects: in JavaScript they are mutable objects, but no code ever changes one, so they are modelled as values. Points passed where the code expects vectors are read through `Point.AsVector`.
- ChatMessage objects: `sendMessage` pushes one object into both the room's `messages` and the global `chatMessages` (complex_code_example.js:53-54). The model stores the same value in both, so the shared identity is not captured. No code changes a message after it is stored.

## Findings

| source | as written | input that shows it | evidently intended | confidence | as-written member | corrected member |
|---|---|---|---|---|---|---|
| complex_code.js:77 | `containsPoint` rejects when the dot product of the segment vector with `point - start` exceeds the segment's length. That dot product equals t times the squared length, so the bound should be the squared length, not the length. | The segment (0,0)-(5,5) and the point (2,2), as in the file's own usage example (line 92): the dot product is 20 and the length is 5√2 ≈ 7.07, so the answer is false. Any segment longer than 1 also rejects its own end point. | Compare the dot product with the squared length. Then a point on the segment's line is accepted exactly when it lies between the endpoints (0 <= t <= 1), which is proved in `Geometry.ContainsPointIntendedOnLine`. | high; not executed | `Geometry.ContainsPointAsWritten` | `Geometry.LineSegment.ContainsPointIntended` |
| complex_code.js:60-83 | A segment whose two points coincide at construction has the zero vector. Then `containsPoint` tests `0 > 0` at line 77 and gets a cross product of 0, so it accepts every point in the plane. | `new LineSegment(new Point(1, 1), new Point(1, 1)).containsPoint(new Point(7, -3))` answers true. | A segment of length zero contains only its start point. | medium; not executed | `Geometry.DegenerateContainsEverything` | `Geometry.LineSegment.ContainsPointIntended` |
