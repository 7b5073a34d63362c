/** The parser record, its character classes and its callbacks
    (app/http/HttpParser.h, app/http/HttpParser.cc). */
module HttpTypes {

  type byte = x: int | 0 <= x < 256

  const CR: int := 13
  const LF: int := 10
  const SP: int := 32
  const TAB: int := 9

  const ULLONG_MAX: int := 0xFFFF_FFFF_FFFF_FFFF
  const HTTP_MAX_HEADER_SIZE: int := 81920

  datatype StartState = Dead | StartReqOrRes | ResOrRespH | StartRes | StartReq

  datatype StatusState =
    | ResH | ResHT | ResHTT | ResHTTP | ResFirstMajor | ResMajor | ResFirstMinor | ResMinor
    | ResFirstStatusCode | ResStatusCode | ResStatusStart | ResStatus | ResLineAlmostDone

  datatype UrlState =
    | ReqSpacesBeforeUrl
    | ReqSchema | ReqSchemaSlash | ReqSchemaSlashSlash | ReqServerStart | ReqServer | ReqServerWithAt
    | ReqPath | ReqQueryStringStart | ReqQueryString | ReqFragmentStart | ReqFragment

  datatype VersionState =
    | ReqHttpStart | ReqH | ReqHT | ReqHTT | ReqHTTP | ReqFirstMajor | ReqMajor | ReqFirstMinor | ReqMinor
    | ReqLineAlmostDone

  datatype FieldState =
    | HeaderFieldStart | HeaderField
    | ValueDiscardWs | ValueDiscardWsAlmostDone | ValueDiscardLws
    | ValueStart | Value | ValueLws | HeaderAlmostDone

  datatype ChunkState = ChunkSizeStart | ChunkSize | ChunkParameters | ChunkSizeAlmostDone

  datatype BodyState = BodyIdentity | BodyIdentityEof | ChunkData | ChunkDataAlmostDone | ChunkDataDone | MessageDone

  /** The states of the parser, grouped by the part of the message they read. */
  datatype State =
    | Start(start: StartState)
    | StatusLine(status: StatusState)
    | Method
    | Url(url: UrlState)
    | Version(version: VersionState)
    | Headers(field: FieldState)
    | HeadersAlmostDone | HeadersDone
    | ChunkHead(chunk: ChunkState)
    | Body(body: BodyState)

  datatype HeaderState =
    | General | HC | HCO | HCON
    | MatchingConnection | MatchingProxyConnection | MatchingContentLength
    | MatchingTransferEncoding | MatchingUpgrade
    | Connection | ContentLength | TransferEncoding | Upgrade
    | MatchingChunked | TokenStart | MatchingKeepAlive | MatchingClose | MatchingConnUpgrade | Token
    | Chunked | KeepAlive | Close | ConnUpgrade

  datatype Kind = REQUEST | RESPONSE | BOTH

  datatype Flag =
    | F_CHUNKED | F_CONNECTION_KEEP_ALIVE | F_CONNECTION_CLOSE | F_CONNECTION_UPGRADE
    | F_TRAILING | F_UPGRADE | F_SKIPBODY | F_CONTENTLENGTH

  datatype Errno =
    | OK
    | INVALID_EOF_STATE | HEADER_OVERFLOW | CLOSED_CONNECTION | INVALID_VERSION | INVALID_STATUS
    | INVALID_METHOD | INVALID_URL | LF_EXPECTED | INVALID_HEADER_TOKEN | INVALID_CONTENT_LENGTH
    | UNEXPECTED_CONTENT_LENGTH | INVALID_CHUNK_SIZE | INVALID_CONSTANT | STRICT

  /** What the first line of a message says. */
  datatype FirstLine = FirstLine(kind: Kind, major: nat, minor: nat, statusCode: nat, meth: nat)

  /** The fields that steer the parse; the count of header bytes, `nread`, is kept beside them. */
  datatype Parser = Parser(
    line: FirstLine, flags: set<Flag>, state: State, headerState: HeaderState, index: nat, lenient: bool,
    contentLength: nat, errno: Errno, upgrade: bool)

  /** `http_parser_init`. */
  function Init(kind: Kind): Parser {
    var start := match kind case REQUEST => StartReq case RESPONSE => StartRes case BOTH => StartReqOrRes;
    Parser(FirstLine(kind, 0, 0, 0, 0), {}, Start(start), General, 0, false, 0, OK, false)
  }

  // ----- Callbacks -----

  datatype DataKind = URL | STATUS | FIELD | VALUE | BODY

  /** Notifications; the last two carry what the callback can read off the parser about what follows. */
  datatype Note =
    | MessageBegin
    | MessageComplete
    | ChunkComplete
    | HeadersComplete(chunked: bool, length: nat, upgrade: bool)
    | ChunkHeader(size: nat)

  datatype Event = Data(kind: DataKind, bytes: seq<byte>) | Notice(note: Note)

  /** What a transition does besides changing the parser: set a mark at the
      current byte unless there is one, hand out what is marked (up to or
      including the current byte), notify, or restart the count of header bytes. */
  datatype Action =
    | SetMark(kind: DataKind)
    | Flush(kind: DataKind)
    | FlushThrough(kind: DataKind)
    | Notify(note: Note)
    | Recount

  /** `exit` means that the parser leaves the rest of the input to another protocol. */
  datatype Out = Out(p: Parser, acts: seq<Action>, exit: bool)

  /** What the application returns from its headers-complete callback: 0, 1 or 2. */
  datatype Answer = Continue | NoBody | NoBodyUpgrade

  // ----- Character classes -----

  predicate Is(c: byte, x: char) {
    c == x as int
  }

  predicate IsBlank(c: byte) {
    c == SP || c == TAB
  }

  function Lower(c: byte): byte {
    if c / 32 % 2 == 0 then c + 32 else c
  }

  predicate IsAlpha(c: byte) {
    'a' as int <= Lower(c) <= 'z' as int
  }

  predicate IsNum(c: byte) {
    '0' as int <= c <= '9' as int
  }

  predicate Among(c: byte, s: string) {
    exists i :: 0 <= i < |s| && s[i] as int == c
  }

  /** The token table: zero for separators and controls, otherwise the lower-case letter. */
  function TokenOf(c: byte): byte {
    if 'A' as int <= c <= 'Z' as int then c + 32
    else if 'a' as int <= c <= 'z' as int || IsNum(c) || Among(c, "!#$%&'*+-.^_`|~") then c
    else 0
  }

  predicate IsUserinfoChar(c: byte) {
    IsAlpha(c) || IsNum(c) || Among(c, "-_.!~*'()%;:&=+$,")
  }

  predicate IsUrlChar(c: byte) {
    33 <= c <= 126 && c != '#' as int && c != '?' as int
  }

  predicate IsHeaderChar(c: byte) {
    c == CR || c == LF || c == TAB || (c > 31 && c != 127)
  }

  /** -1 for bytes that are not hexadecimal digits. */
  function Unhex(c: byte): int {
    if IsNum(c) then c - '0' as int
    else if 'a' as int <= c <= 'f' as int then c - 'a' as int + 10
    else if 'A' as int <= c <= 'F' as int then c - 'A' as int + 10
    else -1
  }

  /** All states up to the end of the headers count towards the header limit. */
  predicate ParsingHeader(s: State) {
    !s.Body?
  }

  // ----- Methods -----

  const METHOD_COUNT: nat := 33

  /** `method_strings`. */
  function MethodName(meth: nat): string {
    match meth
    case 0 => "DELETE" case 1 => "GET" case 2 => "HEAD"
    case 3 => "POST" case 4 => "PUT" case 5 => "CONNECT"
    case 6 => "OPTIONS" case 7 => "TRACE" case 8 => "COPY"
    case 9 => "LOCK" case 10 => "MKCOL" case 11 => "MOVE"
    case 12 => "PROPFIND" case 13 => "PROPPATCH" case 14 => "SEARCH"
    case 15 => "UNLOCK" case 16 => "BIND" case 17 => "REBIND"
    case 18 => "UNBIND" case 19 => "ACL" case 20 => "REPORT"
    case 21 => "MKACTIVITY" case 22 => "CHECKOUT" case 23 => "MERGE"
    case 24 => "M-SEARCH" case 25 => "NOTIFY" case 26 => "SUBSCRIBE"
    case 27 => "UNSUBSCRIBE" case 28 => "PATCH" case 29 => "PURGE"
    case 30 => "MKCALENDAR" case 31 => "LINK" case 32 => "UNLINK"
    case _ => ""
  }

  const GET: nat := 1
  const HEAD: nat := 2
  const POST: nat := 3
  const PUT: nat := 4
  const CONNECT: nat := 5
  const COPY: nat := 8
  const LOCK: nat := 9
  const MKCOL: nat := 10
  const MOVE: nat := 11
  const PROPFIND: nat := 12
  const PROPPATCH: nat := 13
  const SEARCH: nat := 14
  const UNLOCK: nat := 15
  const REBIND: nat := 17
  const UNBIND: nat := 18
  const REPORT: nat := 20
  const MKACTIVITY: nat := 21
  const CHECKOUT: nat := 22
  const MERGE: nat := 23
  const MSEARCH: nat := 24
  const SUBSCRIBE: nat := 26
  const UNSUBSCRIBE: nat := 27
  const PATCH: nat := 28
  const PURGE: nat := 29
  const MKCALENDAR: nat := 30
  const LINK: nat := 31
  const UNLINK: nat := 32

  /** Byte `i` of a C string: zero at its end. */
  function CharAt(s: string, i: nat): int {
    if i < |s| then s[i] as int else 0
  }

  function MethodChar(meth: nat, i: nat): int {
    CharAt(MethodName(meth), i)
  }

  /** First guess at the method from its first letter; -1 if there is none. */
  function FirstMethod(c: byte): int {
    if c == 'A' as int then 19 else if c == 'B' as int then 16 else if c == 'C' as int then CONNECT
    else if c == 'D' as int then 0 else if c == 'G' as int then GET else if c == 'H' as int then HEAD
    else if c == 'L' as int then LOCK else if c == 'M' as int then MKCOL else if c == 'N' as int then 25
    else if c == 'O' as int then 6 else if c == 'P' as int then POST else if c == 'R' as int then REPORT
    else if c == 'S' as int then SUBSCRIBE else if c == 'T' as int then 7 else if c == 'U' as int then UNLOCK
    else -1
  }

  /** Where a letter contradicts the guess, the method it leads to instead; -1 if none. */
  function OtherMethod(meth: nat, index: nat, c: byte): int {
    if meth == POST && index == 1 && c == 'U' as int then PUT
    else if meth == POST && index == 1 && c == 'A' as int then PATCH
    else if meth == POST && index == 1 && c == 'R' as int then PROPFIND
    else if meth == CONNECT && index == 1 && c == 'H' as int then CHECKOUT
    else if meth == CONNECT && index == 2 && c == 'P' as int then COPY
    else if meth == MKCOL && index == 1 && c == 'O' as int then MOVE
    else if meth == MKCOL && index == 1 && c == 'E' as int then MERGE
    else if meth == MKCOL && index == 2 && c == 'A' as int then MKACTIVITY
    else if meth == MKCOL && index == 3 && c == 'A' as int then MKCALENDAR
    else if meth == SUBSCRIBE && index == 1 && c == 'E' as int then SEARCH
    else if meth == REPORT && index == 2 && c == 'B' as int then REBIND
    else if meth == PROPFIND && index == 4 && c == 'P' as int then PROPPATCH
    else if meth == PUT && index == 2 && c == 'R' as int then PURGE
    else if meth == LOCK && index == 1 && c == 'I' as int then LINK
    else if meth == UNLOCK && index == 2 && c == 'S' as int then UNSUBSCRIBE
    else if meth == UNLOCK && index == 2 && c == 'B' as int then UNBIND
    else if meth == UNLOCK && index == 3 && c == 'I' as int then UNLINK
    else -1
  }
}
