# che-terminal-connector: the protocol decisions, verified

che-terminal-connector attaches a local terminal to a shell inside a
container of an Eclipse Che workspace. It talks to the workspace's
machine-exec server over WebSocket using JSON-RPC messages. Two variants
are modelled:

- `src/machine-exec-client.ts` is the machine-exec client. It lists the
  running containers, keeps those the devfile declares as containers,
  creates a terminal session and then resizes it and writes to it. A
  dispatcher handles the server's `connected`, `onExecExit` and
  `onExecError` notifications.
- `index.ts` is the workspace-server variant. It builds the REST
  configuration with a bearer token, picks the machine-exec server of the
  workspace, and builds the `connect` and `attach` URLs and the `create`
  request. It opens a session for every reply with a truthy `result`. It
  forwards keypresses, and exits on two Ctrl-C presses in a row.

The model only covers decisions made on values that are already parsed.
Frames, devfiles and the replies on the control connection are JavaScript
values (`JsValues.Value`). The workspace record returned by the REST API is
a typed record (`Connector.Workspace`) whose fields are each present or
absent. The model spells out the language rules that the decisions depend
on:

- truthiness;
- `Number.isFinite`, which does no coercion;
- strict equality;
- SameValueZero in `includes`;
- property reads, which throw on `null` and `undefined`;
- the string conversion done by `+`.

A promise that resolves is `Some`. A promise that never resolves, or a
listener that throws before it resolves anything, is `None`.

Modules: `Wrappers` (Option), `JsValues`, `Decimal` (integer rendering and
its inverse), `Seqs` (filter/map facts), `JsonRpc` (request records, their
JSON-RPC 2.0 encoding and its decoder), `ContainerDirectory`,
`MachineExecClient`, `KeyForwarding` and `Connector`.

Behaviour of the code worth knowing:

- Contributed containers come out in the order of the server's running list,
  not in devfile order.
- The `listContainers` and `create` replies are taken from the single next
  frame only. They are not correlated by id across frames. A notification
  that arrives first therefore starves the request
  (`ContainerDirectory.NotificationBeforeReplyStarves`).
- Machine keys come from `Object.keys`, which lists a key once even when the
  workspace JSON repeats it (`Connector.KeysOf`).
- No reply timeout, closed-session error, stale-exit filtering or idempotent
  close exists in the code, so none is modelled. Every `onExecExit` calls the
  current handler, whatever session it names.

## Model

| member | source | states |
|---|---|---|
| JsonRpc.EncodeIsRequestObject | src/machine-exec-client.ts:146-151 | every request the client builds is a JSON-RPC 2.0 Request object: `jsonrpc` is "2.0", `method` is an unreserved string, `params` is structured and `id` is a number |
| JsonRpc.EncodeRoundTrip | src/machine-exec-client.ts:153 | the serialised request loses nothing: decoding it gives back the same request record |
| ContainerDirectory.ListContainersRequest | src/machine-exec-client.ts:81-92 | the list request is a JSON-RPC request with method `listContainers`, empty array params and the reserved id -5 |
| ContainerDirectory.DeclaredNames | src/machine-exec-client.ts:110-115 | a missing or falsy `components` list yields no names; a null or undefined devfile, a truthy `components` that is not an array, or a null or undefined entry makes the read throw, so nothing is produced; an array without such entries yields the names of its container components |
| ContainerDirectory.DeclaredNamesExact | src/machine-exec-client.ts:110-115 | a value is a declared name if and only if some component with a truthy `container` entry has that `name`; there are never more names than components |
| ContainerDirectory.DeclaredNamesOrder | src/machine-exec-client.ts:111-115 | names follow devfile order: the names of a concatenation are the names of each part in turn, and one component contributes its name exactly when it is a container |
| ContainerDirectory.ListReply | src/machine-exec-client.ts:94-101 | a reply is accepted only when its `id` is strictly -5 and its `result` is an array; the list then has one entry per result entry, in order, each being that entry's `container` field; with id -5 and an array result of non-null entries it is always accepted |
| ContainerDirectory.GetContainers | src/machine-exec-client.ts:94-102 | only the first frame after the request decides the outcome; with no frame nothing resolves |
| ContainerDirectory.NotificationBeforeReplyStarves | src/machine-exec-client.ts:95-97 | any first frame whose `id` is not -5 (a notification, or the reply to another request) means the running list is never delivered, whatever frames follow |
| ContainerDirectory.ContributedExact | src/machine-exec-client.ts:119-121 | a container is offered if and only if it is running and declared; each offered name keeps its running-list multiplicity; the result is a subsequence of the running list and no longer than it |
| ContainerDirectory.ContributedContainers | src/machine-exec-client.ts:106-122 | a list is offered exactly when the devfile read and the list reply both succeed; it is then a subsequence of the running list holding exactly the running entries that are declared primitives, each with its running-list multiplicity |
| ContainerDirectory.GatewayIsNotOffered | src/machine-exec-client.ts:106-122 | with `app` and `db` declared as containers, a gateway of any other name declared only as a plugin and all three running, exactly `app` and `db` are offered, in the server's order |
| MachineExecClient.CreateRequest | src/machine-exec-client.ts:134-151 | `create` has id 0, tty true and machineName = component. cmd is `sh -c <commandLine>` exactly when the command line is non-empty, otherwise empty. cwd is the workdir or "". Geometry defaults to 80 by 24 only when absent. The request is a valid JSON-RPC request that decodes back to itself |
| MachineExecClient.CreateReply | src/machine-exec-client.ts:159-166 | a session exists if and only if `result` is a finite number, and its id is that number; reading a null frame produces nothing |
| MachineExecClient.CreateTerminalSession | src/machine-exec-client.ts:134-167 | the session, if any, comes from the first frame after the request and from no other |
| MachineExecClient.AttachUrlRoundTrip | src/machine-exec-client.ts:220-223 | the attach URL names its session: the session id is read back from the URL unchanged |
| MachineExecClient.ControlIsNotAttach | src/machine-exec-client.ts:33 | the control URL (the attach URL is built at line 223) is never a session's attach URL, and no session id can be read out of it |
| MachineExecClient.ResizeRequest | src/machine-exec-client.ts:177-195 | `resize` has request id 0 and params {id: session, cols, rows}; it is a valid JSON-RPC request that decodes back to itself |
| MachineExecClient.Perform | src/machine-exec-client.ts:238-244 | a session resize is one resize request on the control connection carrying the session's id; `send` passes its data to the terminal unchanged |
| MachineExecClient.PerformAll | src/machine-exec-client.ts:238-244 | a series of session calls emits exactly one frame per call, in call order |
| MachineExecClient.SessionTraffic | src/machine-exec-client.ts:242-244 | a frame goes to the server if and only if its call was a resize, and it is then a `resize` for this session; sent data reaches the terminal unchanged |
| MachineExecClient.Classify | src/machine-exec-client.ts:38-49 | a frame is `connected`, `onExecExit` or `onExecError` exactly when its `method` is strictly that string; it produces nothing exactly when the frame is null |
| MachineExecClient.Step | src/machine-exec-client.ts:39-49 | `connected` resolves init, and init stays resolved. `onExecExit` calls the current handler once and changes nothing else. `onExit` replaces the handler. Other frames call nothing |
| MachineExecClient.LastRegistrationWins | src/machine-exec-client.ts:198-200 | after any inputs the exit handler is the one registered last, or the default no-op if none was |
| MachineExecClient.ExitCallsCurrentHandler | src/machine-exec-client.ts:42-43 | an `onExecExit` frame appends exactly one call, to the handler registered last before it |
| MachineExecClient.InitResolvedIff | src/machine-exec-client.ts:39-41 | init is resolved if and only if some frame so far was `connected` |
| KeyForwarding.Payload | index.ts:116-121 | the payload is the character when non-empty, otherwise the key's sequence; the listener throws exactly when there is neither |
| KeyForwarding.KeyStep | index.ts:100-121 | a Ctrl-C while the flag is set exits, and nothing else exits. Otherwise the flag becomes "this key was Ctrl-C" and the key is forwarded with its payload |
| KeyForwarding.Press | index.ts:94-122 | no more keys are forwarded than pressed, and a listener still running has forwarded every key |
| KeyForwarding.PressForwards | index.ts:94-122 | over any series of keys, every key before the listener stops is forwarded exactly once and in order, with no two consecutive Ctrl-C among them |
| KeyForwarding.PressStops | index.ts:94-122 | the exiting key is a Ctrl-C right after the forwarded keys, following a Ctrl-C or a set flag; a throw happens on the first key with neither key nor character; a listener still running holds the flag "last key was Ctrl-C" |
| KeyForwarding.ExitsIffPair | index.ts:102-114 | with a given starting flag, the listener exits if and only if a Ctrl-C meets a set flag at the start or two Ctrl-C events are adjacent |
| KeyForwarding.ExitsIffDoubleCtrlC | index.ts:94-114 | starting with the flag clear, the connector exits if and only if two Ctrl-C events arrive consecutively, and it never throws on events the keypress library emits |
| Connector.AuthHeaders | index.ts:12-16 | a headers object exists if and only if the token is non-empty; it then holds only `Authorization`, from which the token is read back |
| Connector.RestApiConfig | index.ts:9-16 | the REST base URL is the API variable and the headers follow the token rule |
| Connector.WorkspaceId | index.ts:19 | the workspace id is the variable when non-empty, otherwise "" |
| Connector.KeysOf | index.ts:29 | `Object.keys`: every member key is listed, only member keys are listed, and none twice |
| Connector.KeysOfPrefix | index.ts:29 | keys come in order of first occurrence: the keys of a prefix of the members are a prefix of the keys of all of them |
| Connector.KeysOfDistinct | index.ts:29 | without repeated keys, the keys are the member keys in member order |
| Connector.FindFrom | index.ts:30 | the search from a position returns the first matching key at or after it, or -1 exactly when there is none |
| Connector.FindMachineExecKey | index.ts:30 | the selected index is the first key starting with `che-machine-exec`, or -1 exactly when no key does |
| Connector.KeyAt | index.ts:34 | an index outside the key list looks up the property "undefined" |
| Connector.PickServer | index.ts:38 | the `che-machine-exec` server entry when present, otherwise the `terminal` entry |
| Connector.SelectEndpoint | index.ts:27-39 | an endpoint exists if and only if the runtime has machines, and the machine found under the selected key has servers and a picked server. The keys offered are the machine keys, and the URL is that server's URL |
| Connector.ChoiceMachineName | index.ts:150-159 | a name is chosen if and only if the answer is an index inside the list, and it is the element at that index |
| Connector.ConnectUrl | index.ts:47 | the connect URL starts with the server URL and continues with `/connect?token=` and the token; an unset URL or token reads "undefined" |
| Connector.AttachUrlRoundTrip | index.ts:86 | the attach URL's terminal segment is the text of the reply's result, and an integral id is read back unchanged |
| Connector.ConnectIsNotAttach | index.ts:47 | the control URL never equals an attach URL on the same server and token |
| Connector.CreateRequest | index.ts:48-63 | `create` has id 0, identifier {machineName, workspaceId}, empty cmd, 80 by 24, tty true and no cwd; it is a valid JSON-RPC request that decodes back to itself |
| Connector.PlanConnection | index.ts:41-63 | a plan exists exactly when an endpoint is selected; its request is the `create` request for the machine key the prompt's answer picks and the workspace id, so a chosen machine name is one of the machine keys |
| Connector.AcceptReply | index.ts:79-83 | a reply opens a session if and only if its `result` is truthy, and the session id is that result; a null reply makes the listener throw |
| Connector.AttachUrls | index.ts:75-89 | no more session connections are opened than replies received |
| Connector.AttachUrlsExact | index.ts:75-89 | when no reply throws, the sessions opened are exactly one per reply with a truthy result, in arrival order |
| Connector.AttachUrlsStop | index.ts:78-80 | a null reply ends the listener: the connections opened are exactly those of the replies before it, whatever follows |
| Connector.CreateAcceptanceDiffers | index.ts:80-83 | the two variants both start a session exactly on a finite non-zero numeric result; the machine-exec client alone accepts a result of 0 |

## Left out

- Sockets: WebSocket connections and their open, error and close events are I/O. Frames are taken as already-parsed values. The init rejection on a socket error, `dispose`, `onOpen` and writing terminal output to stdout belong to this I/O.
- Parsing: `JSON.parse`, `JSON.stringify` text, `fs.readFileSync` and the YAML loader are foreign library calls. Their results are inputs to the model.
- Member order in JSON text: the encoder emits one fixed member order. `index.ts` writes `id` before `method`, and puts `cols`/`rows` before `tty`. JSON-RPC gives member order no meaning.
- Numbers: only integral finite numbers and the two infinities are modelled. Fractional numbers are left out. `JsValues.ToText` renders every integer in plain decimal, while JavaScript switches to exponent notation from 10^21.
- Key order: `Object.keys` returns integer-like keys first, and that reordering is not modelled. Machine keys are taken in order of first occurrence.
- Workspace records: `Connector.Workspace` is a typed record in which `runtime`, `machines`, `servers` and `url` are each present or absent. Three cases cannot be expressed: a `null` machine or server entry, a `machines` or `servers` value that is not an object, and a `url` that is not a string. The source's behaviour on these is not modelled; in particular `??` is modelled on present or absent server entries only, not on a `null` one, which it would skip.
- Thrown frames: a frame the dispatcher throws on (JSON `null`) has no effect in the model. What the runtime then does with the unhandled rejection is not modelled.
- Process exits: the messages printed before `process.exit(1)`, and the exit on attach close, are process I/O.
- Repeated attaches: in `index.ts` every accepted reply opens a connection. Each connection registers its own keypress listener once it opens. The model gives the URLs opened and one listener's behaviour, not how several listeners interleave.
- KeyForwarding.ExitsIffDoubleCtrlC: holds for events the keypress library emits, which carry a key or a non-empty character. For other events the listener throws, which `KeyForwarding.PressStops` states.
- `src/index.ts` (orchestration with prompts, stdout resize events and `process.exit`) and `index.js` (a plain socket relay) are not part of this model. Neither is the REST workspace fetch in `index.ts` beyond the record it returns, nor the prompt UI beyond the index it answers. `src/index.ts` also calls `terminal.onClose`, which `TerminalSession` does not define.
