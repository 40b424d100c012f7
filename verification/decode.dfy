/** The pure part of `create_event_list` (event.py): turning the lines of an
    event file into driver and rider requests, and installing the objects
    those requests create into an initial state. */
module EventList {
  import opened Wrappers
  import opened Seqs
  import opened Text
  import opened Locations
  import opened Riders
  import opened Drivers
  import opened Dispatch
  import opened Events
  import M = Monitoring

  /** What one line yields: a request with the fresh object it names. */
  datatype Entry =
    | DriverEntry(timestamp: int, driver: Driver)
    | RiderEntry(timestamp: int, rider: Rider)

  /** `int(token)`, with its `ValueError`. */
  function Int(token: string): (r: Result<int, DecodeError>)
    ensures r.Success? <==> ParseInt(token).Some?
    ensures r.Success? ==> r.value == ParseInt(token).value
    ensures r.Failure? ==> r.error == BadInteger
  {
    match ParseInt(token)
    case None => Failure(BadInteger)
    case Some(i) => Success(i)
  }

  /** The line after `strip()`, when it is blank or a comment. */
  predicate Skipped(stripped: string) {
    |stripped| == 0 || stripped[0] == '#'
  }

  /** The tokens of a line that is not skipped. */
  function Tokens(line: string): (tokens: seq<string>)
    requires !Skipped(Strip(line))
    ensures tokens == Words(line)
    ensures |tokens| > 0 && forall i :: 0 <= i < |tokens| ==> IsWord(tokens[i])
  {
    WordsOfStrip(line);
    Words(Strip(line))
  }

  /** The first character of the line that is not whitespace is `#`. */
  predicate IsComment(line: string) {
    exists i :: 0 <= i < |line| && line[i] == '#' && IsBlank(line[..i])
  }

  /** The stripped line is skipped exactly when the raw line is blank or a comment. */
  lemma {:induction false} SkippedOfRaw(line: string)
    ensures Skipped(Strip(line)) <==> IsBlank(line) || IsComment(line)
  {
    var m := Strip(line);
    var i, j :| 0 <= i <= j <= |line| && m == line[i..j] && IsBlank(line[..i]) && IsBlank(line[j..]);
    SkippedAt(line, m, i, j);
  }

  /** `SkippedOfRaw` for a stripped text known only by where it sits in the line. */
  lemma {:induction false} SkippedAt(line: string, m: string, i: nat, j: nat)
    requires i <= j <= |line| && m == line[i..j] && IsBlank(line[..i])
    requires |m| == 0 <==> IsBlank(line)
    requires |m| == 0 || !IsSpace(m[0])
    ensures Skipped(m) <==> IsBlank(line) || IsComment(line)
  {
    if |m| > 0 {
      assert line[i] == m[0];
      CommentAtFirst(line, i);
    }
  }

  /** A line is a comment exactly when its first non-space character is `#`. */
  lemma {:induction false} CommentAtFirst(line: string, i: nat)
    requires i < |line| && IsBlank(line[..i]) && !IsSpace(line[i])
    ensures IsComment(line) <==> line[i] == '#'
  {
    forall k | 0 <= k < |line| && IsBlank(line[..k]) && !IsSpace(line[k]) ensures k == i {
      FirstNonSpace(line, i, k);
    }
  }

  /** Only one position has blank text before it and a non-space character at it. */
  lemma {:induction false} FirstNonSpace(line: string, i: nat, k: nat)
    requires i < |line| && k < |line| && !IsSpace(line[i]) && !IsSpace(line[k])
    requires IsBlank(line[..i]) && IsBlank(line[..k])
    ensures i == k
  {
    assert forall x :: 0 <= x < i ==> line[..i][x] == line[x];
    assert forall x :: 0 <= x < k ==> line[..k][x] == line[x];
  }

  /** The tokens of a driver line, from index 2 on, are well formed. */
  predicate DriverFields(tokens: seq<string>) {
    |tokens| >= 5 && ParseInt(tokens[4]).Some? && Deserialize(tokens[3]).Success?
  }

  /** The tokens of a rider line, from index 2 on, are well formed. */
  predicate RiderFields(tokens: seq<string>) {
    && |tokens| >= 6 && Deserialize(tokens[3]).Success? && Deserialize(tokens[4]).Success?
    && ParseInt(tokens[5]).Some?
  }

  /** The fields of a driver line in the order the source reads them:
      speed, identifier, location. */
  function DriverLine(ts: int, tokens: seq<string>): (r: Result<Entry, DecodeError>)
    ensures r.Success? <==> DriverFields(tokens)
    ensures r.Success? ==>
      r.value == DriverEntry(ts, NewDriver(tokens[2], Deserialize(tokens[3]).value, ParseInt(tokens[4]).value))
    ensures |tokens| < 5 ==> r == Failure(MissingField)
  {
    if |tokens| < 5 then Failure(MissingField)
    else
      var speed :- Int(tokens[4]);
      var location :- Deserialize(tokens[3]);
      Success(DriverEntry(ts, NewDriver(tokens[2], location, speed)))
  }

  /** The fields of a rider line in the order the source reads them:
      origin, destination, patience, identifier. */
  function RiderLine(ts: int, tokens: seq<string>): (r: Result<Entry, DecodeError>)
    ensures r.Success? <==> RiderFields(tokens)
    ensures r.Success? ==>
      r.value == RiderEntry(ts, NewRider(tokens[2], Deserialize(tokens[3]).value, Deserialize(tokens[4]).value,
                                         ParseInt(tokens[5]).value))
    ensures |tokens| < 4 ==> r == Failure(MissingField)
  {
    if |tokens| < 4 then Failure(MissingField)
    else
      var origin :- Deserialize(tokens[3]);
      if |tokens| < 5 then Failure(MissingField)
      else
        var destination :- Deserialize(tokens[4]);
        if |tokens| < 6 then Failure(MissingField)
        else
          var patience :- Int(tokens[5]);
          Success(RiderEntry(ts, NewRider(tokens[2], origin, destination, patience)))
  }

  /** A decoded request, as the entry of a line. */
  function Found(r: Result<Entry, DecodeError>): Result<Option<Entry>, DecodeError> {
    match r
    case Success(e) => Success(Some(e))
    case Failure(err) => Failure(err)
  }

  /** The tokens of a line that is not skipped, read as the loop body of
      `create_event_list` reads them: the timestamp first, then the kind;
      a line of an unknown kind gives nothing. */
  function DecodeTokens(tokens: seq<string>): (r: Result<Option<Entry>, DecodeError>)
    requires |tokens| > 0
    ensures ParseInt(tokens[0]).None? ==> r == Failure(BadInteger)
    ensures ParseInt(tokens[0]).Some? && |tokens| == 1 ==> r == Failure(MissingField)
    ensures ParseInt(tokens[0]).Some? && |tokens| >= 2 ==>
      var ts := ParseInt(tokens[0]).value;
      && (tokens[1] == "DriverRequest" ==> r == Found(DriverLine(ts, tokens)))
      && (tokens[1] == "RiderRequest" ==> r == Found(RiderLine(ts, tokens)))
      && (tokens[1] != "DriverRequest" && tokens[1] != "RiderRequest" ==> r == Success(None))
    ensures r.Success? && r.value.Some? ==>
      && |tokens| >= 2 && ParseInt(tokens[0]) == Some(r.value.value.timestamp)
      && (r.value.value.DriverEntry? <==> tokens[1] == "DriverRequest")
      && (r.value.value.RiderEntry? <==> tokens[1] == "RiderRequest")
  {
    var ts :- Int(tokens[0]);
    if |tokens| < 2 then Failure(MissingField)
    else if tokens[1] == "DriverRequest" then Found(DriverLine(ts, tokens))
    else if tokens[1] == "RiderRequest" then Found(RiderLine(ts, tokens))
    else Success(None)
  }

  /** One iteration of the loop in `create_event_list`: blank and comment
      lines give nothing, any other line is split into tokens. */
  function DecodeLine(line: string): (r: Result<Option<Entry>, DecodeError>)
    ensures IsBlank(line) || IsComment(line) ==> r == Success(None)
    ensures !IsBlank(line) && !IsComment(line) ==> |Words(line)| > 0 && r == DecodeTokens(Words(line))
  {
    SkippedOfRaw(line);
    if Skipped(Strip(line)) then Success(None)
    else DecodeTokens(Tokens(line))
  }

  /** The entries of the line outcomes, in order, up to the first failure,
      which ends the reading with its error (see `CollectFirstFailure`). */
  function Collect(rs: seq<Result<Option<Entry>, DecodeError>>): Result<seq<Entry>, DecodeError> {
    if |rs| == 0 then Success([])
    else
      var first :- rs[0];
      var rest :- Collect(rs[1..]);
      Success((if first.Some? then [first.value] else []) + rest)
  }

  /** Collecting succeeds exactly when every outcome does; otherwise its
      error is that of the first failing outcome. */
  lemma {:induction false} CollectFirstFailure(rs: seq<Result<Option<Entry>, DecodeError>>)
    ensures Collect(rs).Success? <==> forall i :: 0 <= i < |rs| ==> rs[i].Success?
    ensures Collect(rs).Failure? ==> exists i ::
      && 0 <= i < |rs| && rs[i] == Failure(Collect(rs).error)
      && forall j :: 0 <= j < i ==> rs[j].Success?
    ensures Collect(rs).Success? ==> |Collect(rs).value| <= |rs|
  {
    if |rs| > 0 {
      var tail := rs[1..];
      CollectFirstFailure(tail);
      assert forall i :: 1 <= i < |rs| ==> tail[i - 1] == rs[i];
      if rs[0].Failure? {
        assert rs[0] == Failure(Collect(rs).error);
      } else if Collect(tail).Failure? {
        var i :| && 0 <= i < |tail| && tail[i] == Failure(Collect(tail).error)
                 && forall j :: 0 <= j < i ==> tail[j].Success?;
        assert rs[i + 1] == Failure(Collect(rs).error);
        assert forall j :: 0 <= j < i + 1 ==> rs[j].Success?;
      }
    }
  }

  /** The result of `create_event_list` on the file's lines. */
  function DecodeLines(lines: seq<string>): (r: Result<seq<Entry>, DecodeError>)
    ensures r.Success? <==> forall i :: 0 <= i < |lines| ==> DecodeLine(lines[i]).Success?
    ensures r.Failure? ==> exists i ::
      && 0 <= i < |lines| && DecodeLine(lines[i]) == Failure(r.error)
      && forall j :: 0 <= j < i ==> DecodeLine(lines[j]).Success?
    ensures r.Success? ==> |r.value| <= |lines|
  {
    CollectFirstFailure(Map(DecodeLine, lines));
    Collect(Map(DecodeLine, lines))
  }

  /** Collecting two runs of outcomes one after the other. */
  ghost predicate CollectsAppended(a: seq<Result<Option<Entry>, DecodeError>>, b: seq<Result<Option<Entry>, DecodeError>>) {
    && (Collect(a).Failure? ==> Collect(a + b) == Collect(a))
    && (Collect(a).Success? && Collect(b).Failure? ==> Collect(a + b) == Collect(b))
    && (Collect(a).Success? && Collect(b).Success? ==>
          Collect(a + b) == Success(Collect(a).value + Collect(b).value))
  }

  lemma {:induction false} CollectAppend(a: seq<Result<Option<Entry>, DecodeError>>, b: seq<Result<Option<Entry>, DecodeError>>)
    ensures Collect(a).Failure? ==> Collect(a + b) == Collect(a)
    ensures Collect(a).Success? && Collect(b).Failure? ==> Collect(a + b) == Collect(b)
    ensures Collect(a).Success? && Collect(b).Success? ==>
      Collect(a + b) == Success(Collect(a).value + Collect(b).value)
  {
    if |a| == 0 {
      assert a + b == b;
      if Collect(b).Success? {
        assert [] + Collect(b).value == Collect(b).value;
      }
    } else {
      CollectAppend(a[1..], b);
      CollectAppendStep(a, b);
    }
  }

  /** One more outcome in front: the inductive step of `CollectAppend`. */
  lemma {:induction false} CollectAppendStep(a: seq<Result<Option<Entry>, DecodeError>>, b: seq<Result<Option<Entry>, DecodeError>>)
    requires |a| > 0 && CollectsAppended(a[1..], b)
    ensures CollectsAppended(a, b)
  {
    var ab := a + b;
    assert ab[0] == a[0] && ab[1..] == a[1..] + b;
    if a[0].Failure? {
      assert Collect(ab) == Failure(a[0].error) == Collect(a);
    } else if Collect(a[1..]).Failure? {
      assert Collect(a[1..] + b) == Collect(a[1..]);
      assert Collect(ab) == Failure(Collect(a[1..]).error) == Collect(a);
    } else if Collect(b).Failure? {
      assert Collect(a[1..] + b) == Collect(b);
      assert Collect(ab) == Collect(b);
    } else {
      var head: seq<Entry> := if a[0].value.Some? then [a[0].value.value] else [];
      calc {
        Collect(ab).value;
        head + Collect(a[1..] + b).value;
        head + (Collect(a[1..]).value + Collect(b).value);
        (head + Collect(a[1..]).value) + Collect(b).value;
        Collect(a).value + Collect(b).value;
      }
    }
  }

  /** Reading a file in two parts: the entries of the first part come
      first, and the first failing line decides the error. */
  lemma {:induction false} DecodeLinesAppend(a: seq<string>, b: seq<string>)
    ensures DecodeLines(a).Failure? ==> DecodeLines(a + b) == DecodeLines(a)
    ensures DecodeLines(a).Success? && DecodeLines(b).Failure? ==> DecodeLines(a + b) == DecodeLines(b)
    ensures DecodeLines(a).Success? && DecodeLines(b).Success? ==>
      DecodeLines(a + b) == Success(DecodeLines(a).value + DecodeLines(b).value)
  {
    MapAppend(DecodeLine, a, b);
    CollectAppend(Map(DecodeLine, a), Map(DecodeLine, b));
  }

  /** Reading a file of no line gives no entry, and reading a single line
      gives that line's entry, nothing, or its error. With `DecodeLinesAppend`
      this fixes which entries a successful reading yields and in what order. */
  lemma {:induction false} DecodeLinesOne(line: string)
    ensures DecodeLines([]) == Success([])
    ensures DecodeLine(line).Failure? ==> DecodeLines([line]) == Failure(DecodeLine(line).error)
    ensures DecodeLine(line) == Success(None) ==> DecodeLines([line]) == Success([])
    ensures DecodeLine(line).Success? && DecodeLine(line).value.Some? ==>
      DecodeLines([line]) == Success([DecodeLine(line).value.value])
  {
    assert Map(DecodeLine, [line]) == [DecodeLine(line)];
    assert Map(DecodeLine, []) == [];
    CollectOne(DecodeLine(line));
  }

  lemma {:induction false} CollectOne(o: Result<Option<Entry>, DecodeError>)
    ensures Collect([]) == Success([])
    ensures o.Failure? ==> Collect([o]) == Failure(o.error)
    ensures o == Success(None) ==> Collect([o]) == Success([])
    ensures o.Success? && o.value.Some? ==> Collect([o]) == Success([o.value.value])
  {
    assert [o][1..] == [] && [o][0] == o;
    assert Collect([o][1..]) == Success([]);
    if o.Success? {
      var head := if o.value.Some? then [o.value.value] else [];
      assert head + [] == head;
    }
  }


  // ---------------------------------------------------------------- writing lines

  /** The event-file line of an entry: the fields separated by single spaces. */
  function EncodeEntry(e: Entry): string {
    match e
    case DriverEntry(ts, d) =>
      Unwords([IntToDecimal(ts), "DriverRequest", d.id, Serialize(d.location), IntToDecimal(d.speed)])
    case RiderEntry(ts, r) =>
      Unwords([IntToDecimal(ts), "RiderRequest", r.id, Serialize(r.origin), Serialize(r.destination),
               IntToDecimal(r.patience)])
  }

  /** An entry as a line creates it: a fresh object whose identifier is one token. */
  predicate Fresh(e: Entry) {
    match e
    case DriverEntry(_, d) => IsWord(d.id) && d == NewDriver(d.id, d.location, d.speed)
    case RiderEntry(_, r) => IsWord(r.id) && r == NewRider(r.id, r.origin, r.destination, r.patience)
  }

  lemma {:induction false} DecimalIsWord(i: int)
    ensures IsWord(IntToDecimal(i))
    ensures IntToDecimal(i)[0] == '-' || IsDigit(IntToDecimal(i)[0])
    ensures IsDigit(IntToDecimal(i)[|IntToDecimal(i)| - 1])
  {
    var d := NatToDecimal(if i < 0 then -i else i);
    forall k | 0 <= k < |d| ensures !IsSpace(d[k]) {
      DigitIsNotSpace(d[k]);
    }
    if i < 0 {
      assert IntToDecimal(i) == "-" + d;
    }
  }

  lemma {:induction false} SerializedIsWord(l: Location)
    ensures IsWord(Serialize(l))
    ensures IsDigit(Serialize(l)[0])
    ensures IsDigit(Serialize(l)[|Serialize(l)| - 1])
  {
    DecimalIsWord(l.row);
    DecimalIsWord(l.column);
  }

  /** The first and last characters of space-joined words. */
  lemma {:induction false} UnwordsEnds(ws: seq<string>)
    requires |ws| > 0 && IsWord(ws[0]) && IsWord(ws[|ws| - 1])
    requires forall i :: 0 <= i < |ws| ==> IsWord(ws[i])
    ensures |Unwords(ws)| > 0 && Unwords(ws)[0] == ws[0][0]
    ensures Unwords(ws)[|Unwords(ws)| - 1] == ws[|ws| - 1][|ws[|ws| - 1]| - 1]
  {
    if |ws| > 1 {
      var u := Unwords(ws[1..]);
      var last := ws[|ws| - 1];
      assert |u| > 0 && u[|u| - 1] == last[|last| - 1] by {
        TailAreWords(ws);
        assert ws[1..][|ws[1..]| - 1] == last;
        UnwordsEnds(ws[1..]);
      }
      UnwordsEndsStep(ws);
    }
  }

  /** One more word in front: the inductive step of `UnwordsEnds`. */
  lemma {:induction false} UnwordsEndsStep(ws: seq<string>)
    requires |ws| > 1 && IsWord(ws[0]) && IsWord(ws[|ws| - 1])
    requires |Unwords(ws[1..])| > 0
    requires Unwords(ws[1..])[|Unwords(ws[1..])| - 1] == ws[|ws| - 1][|ws[|ws| - 1]| - 1]
    ensures |Unwords(ws)| > 0 && Unwords(ws)[0] == ws[0][0]
    ensures Unwords(ws)[|Unwords(ws)| - 1] == ws[|ws| - 1][|ws[|ws| - 1]| - 1]
  {
    var u := Unwords(ws[1..]);
    var line := ws[0] + " " + u;
    assert Unwords(ws) == line;
    assert line[0] == ws[0][0];
    assert line[|line| - 1] == u[|u| - 1];
  }

  /** A line of words that starts with neither a space nor `#` and does not
      end in a space is not skipped, and its tokens are the words. */
  lemma {:induction false} TokensOfUnwords(ws: seq<string>)
    requires |ws| > 0 && IsWord(ws[0]) && IsWord(ws[|ws| - 1])
    requires forall i :: 0 <= i < |ws| ==> IsWord(ws[i])
    requires ws[0][0] != '#'
    ensures !Skipped(Strip(Unwords(ws))) && Tokens(Unwords(ws)) == ws
    ensures DecodeLine(Unwords(ws)) == DecodeTokens(ws)
  {
    var line := Unwords(ws);
    UnwordsEnds(ws);
    assert Strip(line) == line;
    WordsOfUnwords(ws);
  }

  lemma {:induction false} DecodeDriverTokens(t0: string, id: Id, t3: string, t4: string,
                                             ts: int, location: Location, speed: int)
    requires ParseInt(t0) == Some(ts) && Deserialize(t3) == Success(location) && ParseInt(t4) == Some(speed)
    ensures DecodeTokens([t0, "DriverRequest", id, t3, t4])
      == Success(Some(DriverEntry(ts, NewDriver(id, location, speed))))
  {
    var ws := [t0, "DriverRequest", id, t3, t4];
    assert ws[0] == t0 && ws[1] == "DriverRequest" && ws[2] == id && ws[3] == t3 && ws[4] == t4;
    assert DecodeTokens(ws) == Found(DriverLine(ts, ws));
    assert DriverFields(ws);
  }

  lemma {:induction false} DecodeRiderTokens(t0: string, id: Id, t3: string, t4: string, t5: string,
                                            ts: int, origin: Location, destination: Location, patience: int)
    requires ParseInt(t0) == Some(ts) && ParseInt(t5) == Some(patience)
    requires Deserialize(t3) == Success(origin) && Deserialize(t4) == Success(destination)
    ensures DecodeTokens([t0, "RiderRequest", id, t3, t4, t5])
      == Success(Some(RiderEntry(ts, NewRider(id, origin, destination, patience))))
  {
    var ws := [t0, "RiderRequest", id, t3, t4, t5];
    assert ws[0] == t0 && ws[1] == "RiderRequest" && ws[2] == id && ws[3] == t3 && ws[4] == t4 && ws[5] == t5;
    RiderLineOf(ts, ws, origin, destination, patience);
    DecodeRiderKind(ts, ws);
  }

  lemma {:induction false} DecodeRiderKind(ts: int, ws: seq<string>)
    requires |ws| >= 2 && ParseInt(ws[0]) == Some(ts) && ws[1] == "RiderRequest"
    ensures DecodeTokens(ws) == Found(RiderLine(ts, ws))
  {
  }

  lemma {:induction false} RiderLineOf(ts: int, ws: seq<string>, origin: Location, destination: Location, patience: int)
    requires |ws| >= 6 && ParseInt(ws[5]) == Some(patience)
    requires Deserialize(ws[3]) == Success(origin) && Deserialize(ws[4]) == Success(destination)
    ensures RiderLine(ts, ws) == Success(RiderEntry(ts, NewRider(ws[2], origin, destination, patience)))
  {
    assert RiderFields(ws);
  }

  lemma {:induction false} DriverTokensRoundTrip(ts: int, d: Driver)
    requires d == NewDriver(d.id, d.location, d.speed)
    ensures
      var ws := [IntToDecimal(ts), "DriverRequest", d.id, Serialize(d.location), IntToDecimal(d.speed)];
      DecodeTokens(ws) == Success(Some(DriverEntry(ts, d)))
  {
    var t0, t3, t4 := IntToDecimal(ts), Serialize(d.location), IntToDecimal(d.speed);
    assert ParseInt(t0) == Some(ts) by { IntRoundTrip(ts); }
    assert ParseInt(t4) == Some(d.speed) by { IntRoundTrip(d.speed); }
    assert Deserialize(t3) == Success(d.location) by { DeserializeSerialize(d.location); }
    DecodeDriverTokens(t0, d.id, t3, t4, ts, d.location, d.speed);
  }

  lemma {:induction false} RiderTokensRoundTrip(ts: int, r: Rider)
    requires r == NewRider(r.id, r.origin, r.destination, r.patience)
    ensures
      var ws := [IntToDecimal(ts), "RiderRequest", r.id, Serialize(r.origin), Serialize(r.destination),
                 IntToDecimal(r.patience)];
      DecodeTokens(ws) == Success(Some(RiderEntry(ts, r)))
  {
    var t0, t3, t4, t5 := IntToDecimal(ts), Serialize(r.origin), Serialize(r.destination), IntToDecimal(r.patience);
    assert ParseInt(t0) == Some(ts) by { IntRoundTrip(ts); }
    assert ParseInt(t5) == Some(r.patience) by { IntRoundTrip(r.patience); }
    assert Deserialize(t3) == Success(r.origin) by { DeserializeSerialize(r.origin); }
    assert Deserialize(t4) == Success(r.destination) by { DeserializeSerialize(r.destination); }
    DecodeRiderTokens(t0, r.id, t3, t4, t5, ts, r.origin, r.destination, r.patience);
  }

  lemma {:induction false} DriverLineRoundTrip(ts: int, d: Driver)
    requires IsWord(d.id) && d == NewDriver(d.id, d.location, d.speed)
    ensures DecodeLine(EncodeEntry(DriverEntry(ts, d))) == Success(Some(DriverEntry(ts, d)))
  {
    var t0, t3, t4 := IntToDecimal(ts), Serialize(d.location), IntToDecimal(d.speed);
    var ws := [t0, "DriverRequest", d.id, t3, t4];
    assert DecodeLine(Unwords(ws)) == DecodeTokens(ws) by {
      DecimalIsWord(ts);
      DecimalIsWord(d.speed);
      SerializedIsWord(d.location);
      KindsAreWords();
      FiveWords(t0, "DriverRequest", d.id, t3, t4);
      TokensOfUnwords(ws);
    }
    assert DecodeTokens(ws) == Success(Some(DriverEntry(ts, d))) by {
      DriverTokensRoundTrip(ts, d);
    }
  }

  lemma {:induction false} RiderLineRoundTrip(ts: int, r: Rider)
    requires IsWord(r.id) && r == NewRider(r.id, r.origin, r.destination, r.patience)
    ensures DecodeLine(EncodeEntry(RiderEntry(ts, r))) == Success(Some(RiderEntry(ts, r)))
  {
    var t0, t3, t4, t5 := IntToDecimal(ts), Serialize(r.origin), Serialize(r.destination), IntToDecimal(r.patience);
    var ws := [t0, "RiderRequest", r.id, t3, t4, t5];
    assert DecodeLine(Unwords(ws)) == DecodeTokens(ws) by {
      DecimalIsWord(ts);
      DecimalIsWord(r.patience);
      SerializedIsWord(r.origin);
      SerializedIsWord(r.destination);
      KindsAreWords();
      SixWords(t0, "RiderRequest", r.id, t3, t4, t5);
      TokensOfUnwords(ws);
    }
    assert DecodeTokens(ws) == Success(Some(RiderEntry(ts, r))) by {
      RiderTokensRoundTrip(ts, r);
    }
  }

  /** The two request kinds are single tokens. */
  lemma {:induction false} KindsAreWords()
    ensures IsWord("DriverRequest") && IsWord("RiderRequest")
  {
    LettersAreWord("DriverRequest");
    LettersAreWord("RiderRequest");
  }

  lemma {:induction false} LettersAreWord(s: string)
    requires |s| > 0 && forall i :: 0 <= i < |s| ==> 'A' <= s[i] <= 'z'
    ensures IsWord(s)
  {
  }

  lemma {:induction false} FiveWords(a: string, b: string, c: string, d: string, e: string)
    requires IsWord(a) && IsWord(b) && IsWord(c) && IsWord(d) && IsWord(e)
    ensures forall i :: 0 <= i < 5 ==> IsWord([a, b, c, d, e][i])
  {
  }

  lemma {:induction false} SixWords(a: string, b: string, c: string, d: string, e: string, f: string)
    requires IsWord(a) && IsWord(b) && IsWord(c) && IsWord(d) && IsWord(e) && IsWord(f)
    ensures forall i :: 0 <= i < 6 ==> IsWord([a, b, c, d, e, f][i])
  {
  }

  /** Reading back the line written for an entry gives the entry. */
  lemma {:induction false} EntryRoundTrip(e: Entry)
    requires Fresh(e)
    ensures DecodeLine(EncodeEntry(e)) == Success(Some(e))
  {
    match e
    case DriverEntry(ts, d) => DriverLineRoundTrip(ts, d);
    case RiderEntry(ts, r) => RiderLineRoundTrip(ts, r);
  }

  // ---------------------------------------------------------------- initial state

  /** The request an entry stands for. */
  function EventOf(e: Entry): Event {
    match e
    case DriverEntry(ts, d) => DriverRequest(ts, d.id)
    case RiderEntry(ts, r) => RiderRequest(ts, r.id)
  }

  /** No two drivers, and no two riders, of the entries share an identifier,
      so an identifier names one object as a Python reference does. */
  predicate UniqueIds(es: seq<Entry>) {
    forall i, j :: 0 <= i < j < |es| ==>
      && (es[i].DriverEntry? && es[j].DriverEntry? ==> es[i].driver.id != es[j].driver.id)
      && (es[i].RiderEntry? && es[j].RiderEntry? ==> es[i].rider.id != es[j].rider.id)
  }

  predicate PositiveSpeeds(es: seq<Entry>) {
    forall i :: 0 <= i < |es| && es[i].DriverEntry? ==> es[i].driver.speed > 0
  }

  /** The drivers the entries create, filed under their identifiers. */
  function DriversOf(es: seq<Entry>): (m: map<Id, Driver>)
    requires UniqueIds(es)
    ensures forall i :: 0 <= i < |es| && es[i].DriverEntry? ==> es[i].driver.id in m && m[es[i].driver.id] == es[i].driver
    ensures forall k :: k in m ==> m[k].id == k
    ensures PositiveSpeeds(es) ==> forall k :: k in m ==> m[k].speed > 0
  {
    if |es| == 0 then map[]
    else
      var init, e := es[..|es| - 1], es[|es| - 1];
      assert forall i :: 0 <= i < |init| ==> init[i] == es[i];
      var m := DriversOf(init);
      if e.DriverEntry? then m[e.driver.id := e.driver] else m
  }

  /** The riders the entries create, filed under their identifiers. */
  function RidersOf(es: seq<Entry>): (m: map<Id, Rider>)
    requires UniqueIds(es)
    ensures forall i :: 0 <= i < |es| && es[i].RiderEntry? ==> es[i].rider.id in m && m[es[i].rider.id] == es[i].rider
    ensures forall k :: k in m ==> m[k].id == k
  {
    if |es| == 0 then map[]
    else
      var init, e := es[..|es| - 1], es[|es| - 1];
      assert forall i :: 0 <= i < |init| ==> init[i] == es[i];
      var m := RidersOf(init);
      if e.RiderEntry? then m[e.rider.id := e.rider] else m
  }

  /** The state before the first event: every object the file creates, an
      empty dispatcher and an empty monitor; and the request events in file
      order, each naming its object. */
  function Initial(es: seq<Entry>): (r: (State, seq<Event>))
    requires UniqueIds(es) && PositiveSpeeds(es)
    ensures Valid(r.0)
    ensures r.0.dispatcher == NewDispatcher() && r.0.monitor == M.NewMonitor()
    ensures |r.1| == |es|
    ensures forall i :: 0 <= i < |es| ==> r.1[i] == EventOf(es[i]) && Refers(r.0, r.1[i])
    ensures forall i :: 0 <= i < |es| && es[i].DriverEntry? ==>
      es[i].driver.id in r.0.drivers && r.0.drivers[es[i].driver.id] == es[i].driver
    ensures forall i :: 0 <= i < |es| && es[i].RiderEntry? ==>
      es[i].rider.id in r.0.riders && r.0.riders[es[i].rider.id] == es[i].rider
  {
    var s := State(DriversOf(es), RidersOf(es), NewDispatcher(), M.NewMonitor());
    (s, seq(|es|, i requires 0 <= i < |es| => EventOf(es[i])))
  }
}
