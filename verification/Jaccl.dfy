/**
  The control channel of the distributed server (distributed_openai.py): rank 0
  shares one object per round with all ranks through at most two sums over all
  ranks, to which the other ranks contribute zeros.
 */
module Jaccl {
  import opened Options

  const MAGIC: nat := 0x544F4B4E
  const VERSION: nat := 1
  const CONTROL_WORDS: nat := 10
  const MAX_PAYLOAD_BYTES: nat := 64 * 1024 * 1024
  const MAX_SEQUENCE: nat := 0xFFFFFFFF
  const WORD: nat := 0x1_0000_0000

  type Words = seq<nat>

  datatype Field = MagicField | VersionField | MessageTypeField | SequenceField | EpochField
                 | PayloadSizeField | EmptyFrameField | PayloadFrameField

  datatype Error = SequenceOutOfRange | PayloadTooLarge | HeaderLength
                 | Mismatch(fields: seq<Field>) | PayloadChecksum | NotAPickle

  datatype Result<T> = Ok(value: T) | Err(error: Error)

  /** What an acceptable header announces. */
  datatype Frame = Frame(kind: nat, size: nat, checksum: nat)

  /** What is known of pickling and checksums, and the object that asks everybody to stop. */
  datatype Codec<!T> = Codec(dumps: T -> Words, loads: Words -> Option<T>, crc: Words -> nat, stopObject: T)

  ghost predicate Fits(words: Words, bound: nat) {
    forall w | w in words :: w < bound
  }

  /** Every object pickles to at least one byte, and comes back. */
  ghost predicate Faithful<T(!new)>(codec: Codec<T>) {
    forall t :: codec.dumps(t) != [] && Fits(codec.dumps(t), 256) && codec.loads(codec.dumps(t)) == Some(t)
  }

  function Checksum<T>(codec: Codec<T>, payload: Words): (c: nat)
    ensures c < WORD
  {
    codec.crc(payload) % WORD
  }

  // ----- headers

  function Zeros(n: nat): (z: Words)
    ensures |z| == n && forall i | 0 <= i < n :: z[i] == 0
  {
    seq(n, _ => 0)
  }

  function EncodeHeader<T>(codec: Codec<T>, sequence: nat, payload: Words, epoch: Words): Result<Words> {
    if sequence == 0 || sequence > MAX_SEQUENCE then Err(SequenceOutOfRange)
    else if |payload| > MAX_PAYLOAD_BYTES then Err(PayloadTooLarge)
    else Ok([MAGIC, VERSION, if payload != [] then 1 else 0, sequence, |payload|] + epoch
            + [if payload != [] then Checksum(codec, payload) else 0])
  }

  function Bad(wrong: bool, field: Field): seq<Field> {
    if wrong then [field] else []
  }

  /** Everything wrong with a header of ten words, in the order it is reported. */
  function Mismatches(header: Words, sequence: nat, epoch: Words): seq<Field>
    requires |header| == CONTROL_WORDS
  {
    var (kind, size, checksum) := (header[2], header[4], header[9]);
    Bad(header[0] != MAGIC, MagicField)
    + Bad(header[1] != VERSION, VersionField)
    + Bad(kind != 0 && kind != 1, MessageTypeField)
    + Bad(header[3] != sequence, SequenceField)
    + Bad(header[5..9] != epoch, EpochField)
    + Bad(size > MAX_PAYLOAD_BYTES, PayloadSizeField)
    + Bad(kind == 0 && (size != 0 || checksum != 0), EmptyFrameField)
    + Bad(kind == 1 && size == 0, PayloadFrameField)
  }

  function ValidateHeader(header: Words, sequence: nat, epoch: Words): Result<Frame> {
    if |header| != CONTROL_WORDS then Err(HeaderLength)
    else
      var wrong := Mismatches(header, sequence, epoch);
      if wrong != [] then Err(Mismatch(wrong)) else Ok(Frame(header[2], header[4], header[9]))
  }

  lemma HeaderWords<T>(codec: Codec<T>, sequence: nat, payload: Words, epoch: Words)
    requires EncodeHeader(codec, sequence, payload, epoch).Ok? && |epoch| == 4
    ensures var h := EncodeHeader(codec, sequence, payload, epoch).value;
      && |h| == CONTROL_WORDS && h[5..9] == epoch && (forall i | 5 <= i < 9 :: h[i] == epoch[i - 5])
      && h[..5] == [MAGIC, VERSION, if payload != [] then 1 else 0, sequence, |payload|]
      && h[9] == if payload != [] then Checksum(codec, payload) else 0
  {
  }

  /** The header the encoder produces for the payload, up to the checksum of a payload frame. */
  ghost predicate Producible<T>(codec: Codec<T>, header: Words, sequence: nat, epoch: Words, payload: Words)
    requires |epoch| == 4
  {
    && EncodeHeader(codec, sequence, payload, epoch).Ok?
    && |header| == CONTROL_WORDS
    && header[..9] == EncodeHeader(codec, sequence, payload, epoch).value[..9]
    && (payload == [] ==> header[9] == 0)
  }

  lemma ProducibleIsAccepted<T>(codec: Codec<T>, header: Words, sequence: nat, epoch: Words, payload: Words)
    requires |epoch| == 4 && Producible(codec, header, sequence, epoch, payload)
    ensures ValidateHeader(header, sequence, epoch) == Ok(Frame(if payload == [] then 0 else 1, |payload|, header[9]))
  {
    HeaderWords(codec, sequence, payload, epoch);
    var h := EncodeHeader(codec, sequence, payload, epoch).value;
    hide EncodeHeader;
    assert header[..9][..5] == h[..9][..5] == h[..5];
    assert header[..5] == header[..9][..5];
    assert forall i | 0 <= i < 5 :: header[i] == header[..5][i];
    assert header[5..9] == header[..9][5..9] == h[..9][5..9] == h[5..9];
  }

  lemma AcceptedIsProducible<T>(codec: Codec<T>, header: Words, sequence: nat, epoch: Words, payload: Words)
    requires sequence >= 1 && |epoch| == 4 && Fits(header, WORD)
    requires ValidateHeader(header, sequence, epoch).Ok? && |payload| == header[4]
    ensures Producible(codec, header, sequence, epoch, payload)
  {
    assert header[3] in header;
    HeaderWords(codec, sequence, payload, epoch);
    var h := EncodeHeader(codec, sequence, payload, epoch).value;
    hide EncodeHeader;
    forall i | 0 <= i < 9
      ensures header[i] == h[i]
    {
      if i < 5 {
        assert h[i] == h[..5][i];
      } else {
        assert header[i] == header[5..9][i - 5];
      }
    }
    assert header[..9] == h[..9];
  }

  /**
    For every sequence number a rank can expect, the validator accepts exactly the
    headers the encoder can produce for it, with any checksum on payload frames.
   */
  lemma ValidatorAcceptsExactlyTheEncoder<T>(codec: Codec<T>, header: Words, sequence: nat, epoch: Words)
    requires sequence >= 1 && |epoch| == 4 && Fits(header, WORD)
    ensures ValidateHeader(header, sequence, epoch).Ok? <==>
      exists payload :: Producible(codec, header, sequence, epoch, payload)
  {
    hide Producible;
    if ValidateHeader(header, sequence, epoch).Ok? {
      AcceptedIsProducible(codec, header, sequence, epoch, Zeros(header[4]));
    }
    if payload :| Producible(codec, header, sequence, epoch, payload) {
      ProducibleIsAccepted(codec, header, sequence, epoch, payload);
    }
  }

  /** A payload of the announced size passes both checks exactly when the header is the one encoded for it. */
  lemma FramePassesIffEncoded<T>(codec: Codec<T>, header: Words, payload: Words, sequence: nat, epoch: Words)
    requires sequence >= 1 && |epoch| == 4 && Fits(header, WORD)
    ensures (&& ValidateHeader(header, sequence, epoch).Ok?
             && |payload| == ValidateHeader(header, sequence, epoch).value.size
             && (payload != [] ==> Checksum(codec, payload) == ValidateHeader(header, sequence, epoch).value.checksum))
        <==> EncodeHeader(codec, sequence, payload, epoch) == Ok(header)
  {
    if EncodeHeader(codec, sequence, payload, epoch) == Ok(header) {
      HeaderWords(codec, sequence, payload, epoch);
      ProducibleIsAccepted(codec, header, sequence, epoch, payload);
    }
    var result := ValidateHeader(header, sequence, epoch);
    if result.Ok? && |payload| == result.value.size && (payload != [] ==> Checksum(codec, payload) == result.value.checksum) {
      AcceptedIsProducible(codec, header, sequence, epoch, payload);
      HeaderWords(codec, sequence, payload, epoch);
      var h := EncodeHeader(codec, sequence, payload, epoch).value;
      assert header == header[..9] + [header[9]] && h == h[..9] + [h[9]];
    }
  }

  // ----- one rank

  datatype Role<T> = Root(obj: Option<T>, shutdownRequested: bool) | Worker

  datatype Local = Local(sequence: nat, stop: bool)

  datatype Outcome<T> = Returned(obj: Option<T>) | Raised(error: Error)

  /** A rank joins a sum of elements of `width` bytes, or is done. */
  datatype Move<T> = Sum(width: nat, words: Words) | Finish(outcome: Outcome<T>, next: Local)

  /** Rank 0 turns "nothing" into a stop request once a shutdown was asked for. */
  predicate CoordinatedStop<T>(role: Role<T>)
    requires role.Root?
  {
    role.obj.None? && role.shutdownRequested
  }

  function PayloadOf<T>(codec: Codec<T>, role: Role<T>): Words
    requires role.Root?
  {
    if CoordinatedStop(role) then codec.dumps(codec.stopObject)
    else if role.obj.None? then []
    else codec.dumps(role.obj.value)
  }

  /** What a rank does next, given what the sums of this round delivered to it so far. */
  function NextMove<T(==)>(codec: Codec<T>, epoch: Words, role: Role<T>, local: Local, delivered: seq<Words>): Move<T> {
    var sequence := local.sequence + 1;
    if role.Root? then
      var payload := PayloadOf(codec, role);
      match EncodeHeader(codec, sequence, payload, epoch)
      case Err(e) => Finish(Raised(e), local)
      case Ok(header) =>
        if delivered == [] then Sum(4, header)
        else if payload != [] && |delivered| == 1 then Sum(1, payload)
        else if CoordinatedStop(role) then Finish(Returned(None), Local(sequence, true))
        else Finish(Returned(role.obj), Local(sequence, local.stop))
    else if delivered == [] then Sum(4, Zeros(CONTROL_WORDS))
    else
      match ValidateHeader(delivered[0], sequence, epoch)
      case Err(e) => Finish(Raised(e), local)
      case Ok(Frame(kind, size, checksum)) =>
        if kind == 0 then Finish(Returned(None), Local(sequence, local.stop))
        else if |delivered| == 1 then Sum(1, Zeros(size))
        else if Checksum(codec, delivered[1]) != checksum then Finish(Raised(PayloadChecksum), Local(sequence, local.stop))
        else
          match codec.loads(delivered[1])
          case None => Finish(Raised(NotAPickle), Local(sequence, local.stop))
          case Some(obj) =>
            if obj == codec.stopObject then Finish(Returned(None), Local(sequence, true))
            else Finish(Returned(Some(obj)), Local(sequence, local.stop))
  }

  class ResponseGenerator<T(==, !new)> {
    const rank: nat
    const isDistributed: bool
    var controlSequence: nat
    var stop: bool
    var shutdownRequested: bool

    constructor (rank: nat, isDistributed: bool)
      ensures this.rank == rank && this.isDistributed == isDistributed
      ensures controlSequence == 0 && !stop && !shutdownRequested
    {
      this.rank := rank;
      this.isDistributed := isDistributed;
      controlSequence := 0;
      stop := false;
      shutdownRequested := false;
    }

    function Role(obj: Option<T>): Role<T>
      reads this
    {
      if rank == 0 then Root(obj, shutdownRequested) else Worker
    }

    /**
      One call, given what the sums over all ranks deliver: `sent` is what this rank
      contributed, sum by sum, and the outcome and new state are those of its moves.
     */
    method ShareObject(codec: Codec<T>, epoch: Words, obj: Option<T>, control: Words, data: Words)
      returns (outcome: Outcome<T>, sent: seq<Words>)
      modifies this
      ensures shutdownRequested == old(shutdownRequested)
      ensures !isDistributed ==>
        outcome == Returned(obj) && sent == [] && Local(controlSequence, stop) == old(Local(controlSequence, stop))
      ensures isDistributed ==>
        var role, local, delivered := old(Role(obj)), old(Local(controlSequence, stop)), [control, data];
        && |sent| <= 2
        && (forall k | 0 <= k < |sent| ::
             NextMove(codec, epoch, role, local, delivered[..k]) == Sum(if k == 0 then 4 else 1, sent[k]))
        && NextMove(codec, epoch, role, local, delivered[..|sent|]) == Finish(outcome, Local(controlSequence, stop))
    {
      hide EncodeHeader, ValidateHeader, Checksum, Zeros;
      sent := [];
      if !isDistributed {
        return Returned(obj), sent;
      }
      ghost var delivered := [control, data];
      assert delivered[..0] == [] && delivered[..1] == [control] && delivered[..2] == [control, data];
      var sequence := controlSequence + 1;
      if rank == 0 {
        var coordinatedStop := obj.None? && shutdownRequested;
        var sharedObject := if coordinatedStop then Some(codec.stopObject) else obj;
        var payload := if sharedObject.None? then [] else codec.dumps(sharedObject.value);
        var header := EncodeHeader(codec, sequence, payload, epoch);
        if header.Err? {
          return Raised(header.error), sent;
        }
        sent := [header.value];
        if payload != [] {
          sent := sent + [payload];
        }
        controlSequence := sequence;
        if coordinatedStop {
          stop := true;
          return Returned(None), sent;
        }
        return Returned(obj), sent;
      }
      sent := [Zeros(CONTROL_WORDS)];
      var header := ValidateHeader(control, sequence, epoch);
      if header.Err? {
        return Raised(header.error), sent;
      }
      var Frame(messageType, size, checksum) := header.value;
      controlSequence := sequence;
      if messageType == 0 {
        return Returned(None), sent;
      }
      sent := sent + [Zeros(size)];
      if Checksum(codec, data) != checksum {
        return Raised(PayloadChecksum), sent;
      }
      var sharedObject := codec.loads(data);
      if sharedObject.None? {
        return Raised(NotAPickle), sent;
      }
      if sharedObject.value == codec.stopObject {
        stop := true;
        return Returned(None), sent;
      }
      return Returned(sharedObject), sent;
    }
  }

  // ----- all ranks together

  /** What the ranks contribute to element `j`, added up. */
  function Total(contributions: seq<Words>, j: nat): nat
    requires forall c | c in contributions :: j < |c|
  {
    if contributions == [] then 0 else contributions[0][j] + Total(contributions[1..], j)
  }

  /** The sum over all ranks, wrapping around at the width of the elements. */
  function AllSum(width: nat, contributions: seq<Words>): (sum: Words)
    requires contributions != [] && (width == 4 || width == 1)
    requires forall c | c in contributions :: |c| == |contributions[0]|
    ensures |sum| == |contributions[0]|
  {
    seq(|contributions[0]|, j requires 0 <= j < |contributions[0]| =>
      Total(contributions, j) % (if width == 4 then WORD else 256))
  }

  lemma {:induction false} ZerosAddNothing(contributions: seq<Words>, j: nat)
    requires forall c | c in contributions :: j < |c| && c[j] == 0
    ensures Total(contributions, j) == 0
  {
    if contributions != [] {
      ZerosAddNothing(contributions[1..], j);
    }
  }

  /** Rank 0's words arrive unchanged when everybody else contributes zeros. */
  lemma SumIsBroadcast(width: nat, contributions: seq<Words>)
    requires contributions != [] && (width == 4 || width == 1)
    requires forall c | c in contributions :: |c| == |contributions[0]|
    requires Fits(contributions[0], if width == 4 then WORD else 256)
    requires forall i | 1 <= i < |contributions| :: contributions[i] == Zeros(|contributions[0]|)
    ensures AllSum(width, contributions) == contributions[0]
  {
    var sum := AllSum(width, contributions);
    forall j | 0 <= j < |contributions[0]|
      ensures sum[j] == contributions[0][j]
    {
      forall c | c in contributions[1..]
        ensures j < |c| && c[j] == 0
      {
        var i :| 0 <= i < |contributions[1..]| && contributions[1..][i] == c;
        assert contributions[i + 1] == Zeros(|contributions[0]|);
      }
      ZerosAddNothing(contributions[1..], j);
      assert contributions[0][j] in contributions[0];
    }
  }

  /** How one round ends: everybody is done, or some rank waits in a sum others do not join. */
  datatype Played<T> = Completed(outcomes: seq<Outcome<T>>, locals: seq<Local>, sums: nat) | Torn

  function RoleOf<T>(i: nat, obj: Option<T>, shutdown: bool): Role<T> {
    if i == 0 then Root(obj, shutdown) else Worker
  }

  function MovesOf<T(==)>(codec: Codec<T>, epoch: Words, obj: Option<T>, shutdown: bool, locals: seq<Local>,
                          delivered: seq<Words>): (moves: seq<Move<T>>)
    ensures |moves| == |locals|
  {
    seq(|locals|, i requires 0 <= i < |locals| =>
      NextMove(codec, epoch, RoleOf(i, obj, shutdown), locals[i], delivered))
  }

  predicate AllFinished<T>(moves: seq<Move<T>>) {
    forall i | 0 <= i < |moves| :: moves[i].Finish?
  }

  predicate SameSum<T>(moves: seq<Move<T>>) {
    moves != [] && moves[0].Sum? &&
    forall i | 0 <= i < |moves| ::
      moves[i].Sum? && moves[i].width == moves[0].width && |moves[i].words| == |moves[0].words|
  }

  /** Play a round: a sum takes place when every rank joins it with the same width and length. */
  function Play<T(==)>(codec: Codec<T>, epoch: Words, obj: Option<T>, shutdown: bool, locals: seq<Local>,
                       delivered: seq<Words>): Played<T>
    decreases 3 - |delivered|
  {
    var moves := MovesOf(codec, epoch, obj, shutdown, locals, delivered);
    if AllFinished(moves) then
      Completed(seq(|moves|, i requires 0 <= i < |moves| => moves[i].outcome),
                seq(|moves|, i requires 0 <= i < |moves| => moves[i].next), |delivered|)
    else if SameSum(moves) then
      var contributions := seq(|moves|, i requires 0 <= i < |moves| => moves[i].words);
      Play(codec, epoch, obj, shutdown, locals, delivered + [AllSum(moves[0].width, contributions)])
    else Torn
  }

  /** All ranks count the same rounds and agree on whether to stop. */
  predicate InStep(locals: seq<Local>) {
    locals != [] && forall i | 0 <= i < |locals| :: locals[i] == locals[0]
  }

  function Everywhere<A>(n: nat, a: A): (s: seq<A>)
    ensures |s| == n && forall i | 0 <= i < n :: s[i] == a
  {
    seq(n, _ => a)
  }

  /** What a worker makes of the object rank 0 shares. */
  function Heard<T(==)>(codec: Codec<T>, obj: Option<T>): Option<T> {
    if obj == Some(codec.stopObject) then None else obj
  }

  /** Rank 0 can put the object on the wire in the round after `local`. */
  predicate Shareable<T>(codec: Codec<T>, role: Role<T>, local: Local)
    requires role.Root?
  {
    local.sequence + 1 <= MAX_SEQUENCE && |PayloadOf(codec, role)| <= MAX_PAYLOAD_BYTES
  }

  /** What each rank returns. */
  function Results<T(==)>(codec: Codec<T>, role: Role<T>, n: nat): (r: seq<Outcome<T>>)
    requires role.Root?
    ensures |r| == n && (n > 0 ==> r[0] == Returned(role.obj))
    ensures forall i | 1 <= i < n :: r[i] == Returned(Heard(codec, role.obj))
  {
    if n == 0 then [] else [Returned(role.obj)] + Everywhere(n - 1, Returned(Heard(codec, role.obj)))
  }

  /** Where each rank ends up. */
  function NextLocals<T(==)>(codec: Codec<T>, role: Role<T>, local: Local, n: nat): (r: seq<Local>)
    requires role.Root?
    ensures |r| == n && (n > 0 ==> r[0] == Local(local.sequence + 1, local.stop || CoordinatedStop(role)))
    ensures forall i | 1 <= i < n ::
      r[i] == Local(local.sequence + 1, local.stop || CoordinatedStop(role) || role.obj == Some(codec.stopObject))
  {
    var sequence, stop := local.sequence + 1, local.stop || CoordinatedStop(role);
    if n == 0 then []
    else [Local(sequence, stop)] + Everywhere(n - 1, Local(sequence, stop || role.obj == Some(codec.stopObject)))
  }

  lemma RootMoves<T(!new)>(codec: Codec<T>, epoch: Words, role: Role<T>, local: Local, control: Words, data: Words)
    requires role.Root? && Shareable(codec, role, local) && |epoch| == 4
    ensures var payload, sequence := PayloadOf(codec, role), local.sequence + 1;
      var header := EncodeHeader(codec, sequence, payload, epoch).value;
      var done: Move<T> := Finish(Returned(role.obj), Local(sequence, local.stop || CoordinatedStop(role)));
      && NextMove(codec, epoch, role, local, []) == Sum(4, header)
      && (payload == [] ==> NextMove(codec, epoch, role, local, [control]) == done)
      && (payload != [] ==> NextMove(codec, epoch, role, local, [control]) == Sum(1, payload))
      && NextMove(codec, epoch, role, local, [control, data]) == done
  {
  }

  lemma HeaderIsValid<T>(codec: Codec<T>, sequence: nat, payload: Words, epoch: Words)
    requires 1 <= sequence <= MAX_SEQUENCE && |payload| <= MAX_PAYLOAD_BYTES && |epoch| == 4 && Fits(epoch, WORD)
    ensures EncodeHeader(codec, sequence, payload, epoch).Ok?
    ensures var header := EncodeHeader(codec, sequence, payload, epoch).value;
      && |header| == CONTROL_WORDS && Fits(header, WORD)
      && ValidateHeader(header, sequence, epoch) ==
           Ok(Frame(if payload == [] then 0 else 1, |payload|, if payload == [] then 0 else Checksum(codec, payload)))
  {
    var header := EncodeHeader(codec, sequence, payload, epoch).value;
    assert header[5..9] == epoch;
    forall w | w in header
      ensures w < WORD
    {
      var i :| 0 <= i < |header| && header[i] == w;
      if 5 <= i < 9 {
        assert header[i] == epoch[i - 5] && epoch[i - 5] in epoch;
      }
    }
  }

  lemma WorkerMoves<T(!new)>(codec: Codec<T>, epoch: Words, root: Role<T>, local: Local)
    requires Faithful(codec) && root.Root? && Shareable(codec, root, local) && |epoch| == 4 && Fits(epoch, WORD)
    ensures var payload, sequence := PayloadOf(codec, root), local.sequence + 1;
      var header := EncodeHeader(codec, sequence, payload, epoch).value;
      var stopping := CoordinatedStop(root) || root.obj == Some(codec.stopObject);
      var done: Move<T> := Finish(Returned(Heard(codec, root.obj)), Local(sequence, local.stop || stopping));
      && NextMove(codec, epoch, Worker, local, []) == Sum(4, Zeros(CONTROL_WORDS))
      && (payload == [] ==> NextMove(codec, epoch, Worker, local, [header]) == done)
      && (payload != [] ==> NextMove(codec, epoch, Worker, local, [header]) == Sum(1, Zeros(|payload|)))
      && (payload != [] ==> NextMove(codec, epoch, Worker, local, [header, payload]) == done)
  {
    hide ValidateHeader, EncodeHeader;
    var payload, sequence := PayloadOf(codec, root), local.sequence + 1;
    HeaderIsValid(codec, sequence, payload, epoch);
    assert Faithful(codec);
  }

  /** A sum to which rank 0 brings words and everybody else zeros delivers those words. */
  lemma SumDelivers<T(!new)>(codec: Codec<T>, epoch: Words, obj: Option<T>, shutdown: bool, locals: seq<Local>,
                             delivered: seq<Words>, width: nat, words: Words)
    requires locals != [] && (width == 4 || width == 1) && Fits(words, if width == 4 then WORD else 256)
    requires NextMove(codec, epoch, Root(obj, shutdown), locals[0], delivered) == Sum(width, words)
    requires forall i | 1 <= i < |locals| ::
      NextMove(codec, epoch, Worker, locals[i], delivered) == Sum(width, Zeros(|words|))
    ensures Play(codec, epoch, obj, shutdown, locals, delivered)
         == Play(codec, epoch, obj, shutdown, locals, delivered + [words])
  {
    hide NextMove;
    var moves := MovesOf(codec, epoch, obj, shutdown, locals, delivered);
    assert !moves[0].Finish? && SameSum(moves);
    var contributions := seq(|moves|, i requires 0 <= i < |moves| => moves[i].words);
    forall c | c in contributions
      ensures |c| == |contributions[0]|
    {
      var i :| 0 <= i < |contributions| && contributions[i] == c;
      assert |moves[i].words| == |words|;
    }
    SumIsBroadcast(width, contributions);
  }

  lemma RoundEnds<T(!new)>(codec: Codec<T>, epoch: Words, obj: Option<T>, shutdown: bool, locals: seq<Local>,
                           delivered: seq<Words>)
    requires InStep(locals)
    requires var role := Root(obj, shutdown);
      && NextMove(codec, epoch, role, locals[0], delivered)
         == Finish(Results(codec, role, |locals|)[0], NextLocals(codec, role, locals[0], |locals|)[0])
      && forall i | 1 <= i < |locals| ::
           NextMove(codec, epoch, Worker, locals[i], delivered)
           == Finish(Results(codec, role, |locals|)[i], NextLocals(codec, role, locals[0], |locals|)[i])
    ensures var role := Root(obj, shutdown);
      Play(codec, epoch, obj, shutdown, locals, delivered)
      == Completed(Results(codec, role, |locals|), NextLocals(codec, role, locals[0], |locals|), |delivered|)
  {
    hide NextMove;
    var role, n := Root(obj, shutdown), |locals|;
    var moves := MovesOf(codec, epoch, obj, shutdown, locals, delivered);
    forall i | 0 <= i < n
      ensures moves[i] == Finish(Results(codec, role, n)[i], NextLocals(codec, role, locals[0], n)[i])
    {
    }
    assert AllFinished(moves);
    assert seq(|moves|, i requires 0 <= i < |moves| => moves[i].outcome) == Results(codec, role, n);
    assert seq(|moves|, i requires 0 <= i < |moves| => moves[i].next) == NextLocals(codec, role, locals[0], n);
  }

  /**
    From ranks in step, a round in which rank 0 can put the object on the wire ends on
    every rank: all join the same one or two sums, and the workers return what rank 0 shared.
   */
  lemma RoundCompletes<T(!new)>(codec: Codec<T>, epoch: Words, obj: Option<T>, shutdown: bool, locals: seq<Local>)
    requires Faithful(codec) && InStep(locals) && |epoch| == 4 && Fits(epoch, WORD)
    requires Shareable(codec, Root(obj, shutdown), locals[0])
    ensures var role := Root(obj, shutdown);
      Play(codec, epoch, obj, shutdown, locals, [])
      == Completed(Results(codec, role, |locals|), NextLocals(codec, role, locals[0], |locals|),
                   if PayloadOf(codec, role) == [] then 1 else 2)
  {
    hide NextMove, Play, Shareable, EncodeHeader, ValidateHeader;
    var role, local := Root(obj, shutdown), locals[0];
    var payload := PayloadOf(codec, role);
    assert Shareable(codec, role, local);
    EncodedHeaderFits(codec, epoch, role, local);
    var header := EncodeHeader(codec, local.sequence + 1, payload, epoch).value;
    RootMoves(codec, epoch, role, local, header, payload);
    WorkerMoves(codec, epoch, role, local);
    SumDelivers(codec, epoch, obj, shutdown, locals, [], 4, header);
    assert [] + [header] == [header];
    if payload == [] {
      RoundEnds(codec, epoch, obj, shutdown, locals, [header]);
    } else {
      SumDelivers(codec, epoch, obj, shutdown, locals, [header], 1, payload);
      assert [header] + [payload] == [header, payload];
      RoundEnds(codec, epoch, obj, shutdown, locals, [header, payload]);
    }
  }

  lemma EncodedHeaderFits<T(!new)>(codec: Codec<T>, epoch: Words, role: Role<T>, local: Local)
    requires Faithful(codec) && role.Root? && |epoch| == 4 && Fits(epoch, WORD)
    requires Shareable(codec, role, local)
    ensures EncodeHeader(codec, local.sequence + 1, PayloadOf(codec, role), epoch).Ok?
    ensures var header := EncodeHeader(codec, local.sequence + 1, PayloadOf(codec, role), epoch).value;
      |header| == CONTROL_WORDS && Fits(header, WORD) && Fits(PayloadOf(codec, role), 256)
  {
    hide EncodeHeader;
    HeaderIsValid(codec, local.sequence + 1, PayloadOf(codec, role), epoch);
  }

  /** An object rank 0 cannot put on the wire is refused there before any sum, and leaves the others waiting. */
  lemma RefusedRoundTears<T(!new)>(codec: Codec<T>, epoch: Words, obj: Option<T>, shutdown: bool, locals: seq<Local>)
    requires InStep(locals) && |locals| >= 2 && !Shareable(codec, Root(obj, shutdown), locals[0])
    ensures Play(codec, epoch, obj, shutdown, locals, []) == Torn
    ensures NextMove(codec, epoch, Root(obj, shutdown), locals[0], []).Finish?
    ensures NextMove(codec, epoch, Root(obj, shutdown), locals[0], []).outcome.Raised?
    ensures NextMove(codec, epoch, Root(obj, shutdown), locals[0], []).next == locals[0]
  {
    var moves := MovesOf(codec, epoch, obj, shutdown, locals, []);
    assert moves[0].Finish? && moves[1].Sum?;
  }

  /** With several ranks, a round ends on all of them exactly when rank 0 does not refuse the object. */
  lemma RoundCompletesIffShareable<T(!new)>(codec: Codec<T>, epoch: Words, obj: Option<T>, shutdown: bool, locals: seq<Local>)
    requires Faithful(codec) && InStep(locals) && |locals| >= 2 && |epoch| == 4 && Fits(epoch, WORD)
    ensures Play(codec, epoch, obj, shutdown, locals, []).Completed?
      <==> Shareable(codec, Root(obj, shutdown), locals[0])
  {
    hide Play, Shareable;
    if Shareable(codec, Root(obj, shutdown), locals[0]) {
      RoundCompletes(codec, epoch, obj, shutdown, locals);
    } else {
      RefusedRoundTears(codec, epoch, obj, shutdown, locals);
    }
  }

  lemma OrdinaryRound<T(!new)>(codec: Codec<T>, role: Role<T>, local: Local, n: nat)
    requires role.Root? && role.obj != Some(codec.stopObject)
    ensures Results(codec, role, n) == Everywhere(n, Returned(role.obj))
    ensures NextLocals(codec, role, local, n)
         == Everywhere(n, Local(local.sequence + 1, local.stop || CoordinatedStop(role)))
  {
  }

  /**
    All ranks return the same and stay in step exactly when the object shared is not
    the one that asks everybody to stop: rank 0 would return it and go on alone.
   */
  lemma SameEverywhereIffNotTheStopObject<T(!new)>(codec: Codec<T>, epoch: Words, obj: Option<T>, shutdown: bool, locals: seq<Local>)
    requires Faithful(codec) && InStep(locals) && |locals| >= 2 && |epoch| == 4 && Fits(epoch, WORD)
    requires Shareable(codec, Root(obj, shutdown), locals[0])
    ensures var played := Play(codec, epoch, obj, shutdown, locals, []);
      && played.Completed?
      && (played.outcomes == Everywhere(|locals|, Returned(obj)) && InStep(played.locals)
          <==> obj != Some(codec.stopObject))
  {
    hide Play, Shareable;
    RoundCompletes(codec, epoch, obj, shutdown, locals);
    var role, n := Root(obj, shutdown), |locals|;
    var results := Results(codec, role, n);
    if obj == Some(codec.stopObject) {
      assert results[1] != Returned(obj);
    } else {
      OrdinaryRound(codec, role, locals[0], n);
    }
  }

  // ----- any number of rounds

  datatype Share<T> = Share(obj: Option<T>, shutdownRequested: bool)

  /** Play round after round, as long as every rank gets through. */
  function PlayRounds<T(==)>(codec: Codec<T>, epoch: Words, locals: seq<Local>, rounds: seq<Share<T>>): seq<Played<T>>
    decreases |rounds|
  {
    if rounds == [] then []
    else
      var played := Play(codec, epoch, rounds[0].obj, rounds[0].shutdownRequested, locals, []);
      [played] + if played.Torn? then [] else PlayRounds(codec, epoch, played.locals, rounds[1..])
  }

  /** Some round up to and including `k` asks for a coordinated stop. */
  ghost predicate StopAsked<T>(rounds: seq<Share<T>>, k: nat)
    requires k < |rounds|
  {
    exists j :: 0 <= j <= k && rounds[j].obj.None? && rounds[j].shutdownRequested
  }

  /** The objects rank 0 may share: not the stop object itself, and small enough. */
  ghost predicate Ordinary<T>(codec: Codec<T>, round: Share<T>) {
    && round.obj != Some(codec.stopObject)
    && |PayloadOf(codec, Root(round.obj, round.shutdownRequested))| <= MAX_PAYLOAD_BYTES
  }

  /** After round `k` every rank returned what rank 0 shared, counted it, and agrees on the stop. */
  ghost predicate GoneRight<T(!new)>(locals: seq<Local>, rounds: seq<Share<T>>, played: seq<Played<T>>, k: nat)
    requires locals != [] && k < |rounds| == |played|
  {
    && played[k].Completed?
    && played[k].outcomes == Everywhere(|locals|, Returned(rounds[k].obj))
    && played[k].locals == Everywhere(|locals|, Local(locals[0].sequence + k + 1, locals[0].stop || StopAsked(rounds, k)))
  }

  /**
    For any number of ranks and any rounds of ordinary objects within the range of
    the sequence counter: every round ends on every rank, all return what rank 0
    shared, the counters stay equal, and all learn of a stop in the same round.
   */
  lemma {:induction false} LockstepAlways<T(!new)>(codec: Codec<T>, epoch: Words, locals: seq<Local>, rounds: seq<Share<T>>)
    requires Faithful(codec) && InStep(locals) && |epoch| == 4 && Fits(epoch, WORD)
    requires forall k | 0 <= k < |rounds| :: Ordinary(codec, rounds[k])
    requires locals[0].sequence + |rounds| <= MAX_SEQUENCE
    ensures var played := PlayRounds(codec, epoch, locals, rounds);
      |played| == |rounds| && forall k | 0 <= k < |rounds| :: GoneRight(locals, rounds, played, k)
    decreases |rounds|
  {
    hide Play, PayloadOf;
    if rounds != [] {
      var n, local, first := |locals|, locals[0], rounds[0];
      var role := Root(first.obj, first.shutdownRequested);
      assert Ordinary(codec, first);
      RoundCompletes(codec, epoch, first.obj, first.shutdownRequested, locals);
      var next := Local(local.sequence + 1, local.stop || CoordinatedStop(role));
      OrdinaryRound(codec, role, local, n);
      var locals' := Everywhere(n, next);
      LockstepAlways(codec, epoch, locals', rounds[1..]);
      var played, rest := PlayRounds(codec, epoch, locals, rounds), PlayRounds(codec, epoch, locals', rounds[1..]);
      assert played[1..] == rest;
      assert StopAsked(rounds, 0) <==> CoordinatedStop(role);
      forall k | 1 <= k < |rounds|
        ensures GoneRight(locals, rounds, played, k)
      {
        assert GoneRight(locals', rounds[1..], rest, k - 1);
        StopAskedLater(rounds, k);
      }
    }
  }

  lemma StopAskedLater<T>(rounds: seq<Share<T>>, k: nat)
    requires 1 <= k < |rounds|
    ensures StopAsked(rounds, k) <==> StopAsked(rounds, 0) || StopAsked(rounds[1..], k - 1)
  {
    if StopAsked(rounds, k) {
      var j :| 0 <= j <= k && rounds[j].obj.None? && rounds[j].shutdownRequested;
      if j > 0 {
        assert rounds[1..][j - 1] == rounds[j];
      }
    }
    if StopAsked(rounds[1..], k - 1) {
      var j :| 0 <= j <= k - 1 && rounds[1..][j].obj.None? && rounds[1..][j].shutdownRequested;
      assert rounds[1..][j] == rounds[j + 1];
    }
  }
}
