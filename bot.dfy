/**
 like_and_recast and main of multi_account_bot.py: for every token, in file order,
 and every cast hash, in file order, a like request and a recast request, and one
 CSV row per pair.
 */
module Bot {
  import opened Options
  import opened Input
  import opened Retries
  import opened Grids

  /** What the server answers, call by call, to the like request and to the recast request of one pair. */
  datatype PairScript = PairScript(like: seq<Outcome>, recast: seq<Outcome>)

  predicate Scripted(pair: PairScript) {
    |pair.like| >= Budget && |pair.recast| >= Budget
  }

  /**
   like_and_recast: the like request, then the recast request, each through the retry
   loop. The recast request is made whatever the like request gave.
   */
  method LikeAndRecast(pair: PairScript) returns (like: Retried, recast: Retried)
    requires Scripted(pair)
    ensures like == Retry(pair.like)
    ensures recast == Retry(pair.recast)
    ensures 1 <= like.calls && 1 <= recast.calls
  {
    var likeResult, likeCalls, likeDelays := RequestWithRetries(pair.like);
    like := Retried(likeResult, likeCalls, likeDelays);
    var recastResult, recastCalls, recastDelays := RequestWithRetries(pair.recast);
    recast := Retried(recastResult, recastCalls, recastDelays);
    CallsBounded(pair.like);
    CallsBounded(pair.recast);
  }

  /** A CSV cell: csv.writer writes an int in decimal and a string as it is. */
  datatype Cell = Num(n: int) | Text(s: string)

  datatype Row = Row(tokenIndex: nat, tokenPreview: string, castHash: string,
                     likeStatus: Cell, recastStatus: Cell, note: string)

  datatype Csv = Csv(header: seq<string>, rows: seq<Row>)

  const Header: seq<string> := ["token_index", "token_preview", "cast_hash", "like_status", "recast_status", "note"]
  const NoResponse: string := "no-response"
  const FailedRetries: string := "failed_retries"
  const PreviewLength: nat := 12
  const Ellipsis: string := "..."

  function Min(a: int, b: int): int {
    if a <= b then a else b
  }

  /** Python's `s[:n]`: the first n characters, or all of them when there are fewer. */
  function Take(s: string, n: nat): (r: string)
    ensures r == s[..Min(n, |s|)]
  {
    if n == 0 || s == [] then [] else [s[0]] + Take(s[1..], n - 1)
  }

  /** `tokens[i-1][:12] + "..."`, or "" for an empty token. */
  function Preview(token: string): string {
    if |token| == 0 then [] else Take(token, PreviewLength) + Ellipsis
  }

  /** The preview is empty only for an empty token; otherwise it is a prefix of at most twelve characters, then "...". */
  lemma PreviewShape(token: string)
    ensures var p := Preview(token);
      && (token == [] <==> p == [])
      && (token != [] ==>
            && |p| == Min(PreviewLength, |token|) + |Ellipsis|
            && p[..|p| - |Ellipsis|] <= token
            && p[|p| - |Ellipsis|..] == Ellipsis)
  {
    if token != [] {
      var p := Preview(token);
      assert p[..|p| - |Ellipsis|] == token[..Min(PreviewLength, |token|)];
    }
  }

  /**
   For a normalised token the empty-token case never applies: the preview shows the
   bearer prefix and at most twelve characters of the token.
   */
  lemma PreviewOfNormalized(raw: string)
    ensures var p := Preview(NormalizeToken(raw));
      && |BearerPrefix| + |Ellipsis| <= |p| <= PreviewLength + |Ellipsis|
      && HasBearerPrefix(p)
  {
    var t := NormalizeToken(raw);
    NormalizedLength(raw);
    PreviewShape(t);
    var p := Preview(t);
    assert p[..7] == t[..7];
    assert Lower(p)[..7] == Lower(t)[..7];
  }

  /** The list comprehension that normalises every loaded token. */
  function NormalizeAll(raw: seq<string>): (tokens: seq<string>)
    ensures |tokens| == |raw|
    ensures forall k :: 0 <= k < |tokens| ==> HasBearerPrefix(tokens[k])
  {
    seq(|raw|, k requires 0 <= k < |raw| => NormalizeToken(raw[k]))
  }

  /** The status column for one request: its numeric status, or "no-response". */
  function StatusCell(r: Option<Response>): Cell {
    if r.Some? then Num(r.value.status) else Text(NoResponse)
  }

  /** The status cell is "no-response" exactly when there is no response, and otherwise that response's status code. */
  lemma StatusCellMeaning(r: Option<Response>)
    ensures StatusCell(r) == Text(NoResponse) <==> r.None?
    ensures StatusCell(r).Num? <==> r.Some?
    ensures StatusCell(r).Num? ==> StatusCell(r).n == r.value.status
  {
  }

  /** The row main writes for one (token, hash) pair; `index` counts tokens from 1. */
  function MakeRow(index: nat, token: string, hash: string, pair: PairScript): Row
    requires Scripted(pair)
  {
    var like := Retry(pair.like).result;
    var recast := Retry(pair.recast).result;
    Row(index, Preview(token), hash, StatusCell(like), StatusCell(recast),
        if like.None? || recast.None? then FailedRetries else "")
  }

  /**
   A status cell reads "no-response" exactly when that request's first six outcomes were
   all retried, and otherwise holds a status that is neither 429 nor 5xx (by
   RowStatusIsLastCall, the status of the last call, the first one not retried); the note reads "failed_retries" exactly when either cell reads
   "no-response", and is empty otherwise.
   */
  lemma RowEncoding(index: nat, token: string, hash: string, pair: PairScript)
    requires Scripted(pair)
    ensures var row := MakeRow(index, token, hash, pair);
      && row.tokenIndex == index && row.tokenPreview == Preview(token) && row.castHash == hash
      && (row.likeStatus == Text(NoResponse) <==> Exhausting(pair.like))
      && (row.recastStatus == Text(NoResponse) <==> Exhausting(pair.recast))
      && (row.likeStatus.Num? <==> !Exhausting(pair.like))
      && (row.recastStatus.Num? <==> !Exhausting(pair.recast))
      && (row.likeStatus.Num? ==> !Transient(row.likeStatus.n))
      && (row.recastStatus.Num? ==> !Transient(row.recastStatus.n))
      && (row.note == FailedRetries <==> Exhausting(pair.like) || Exhausting(pair.recast))
      && (row.note == "" <==> !Exhausting(pair.like) && !Exhausting(pair.recast))
  {
    ExhaustedIff(pair.like);
    ExhaustedIff(pair.recast);
    AnswerIsFirstFinal(pair.like);
    AnswerIsFirstFinal(pair.recast);
  }

  /** A numeric status cell is the status of the response to that request's last call. */
  lemma RowStatusIsLastCall(index: nat, token: string, hash: string, pair: PairScript)
    requires Scripted(pair)
    ensures var row := MakeRow(index, token, hash, pair);
      && (row.likeStatus.Num? ==>
            && 1 <= Retry(pair.like).calls <= Budget
            && pair.like[Retry(pair.like).calls - 1].Answer?
            && row.likeStatus.n == pair.like[Retry(pair.like).calls - 1].response.status)
      && (row.recastStatus.Num? ==>
            && 1 <= Retry(pair.recast).calls <= Budget
            && pair.recast[Retry(pair.recast).calls - 1].Answer?
            && row.recastStatus.n == pair.recast[Retry(pair.recast).calls - 1].response.status)
  {
    CallsBounded(pair.like);
    CallsBounded(pair.recast);
    AnswerIsFirstFinal(pair.like);
    AnswerIsFirstFinal(pair.recast);
  }

  /** A like request that meets 500 on every attempt logs "no-response" and "failed_retries", whatever the recast did. */
  lemma ServerDownRow(index: nat, token: string, hash: string, pair: PairScript)
    requires Scripted(pair)
    requires forall k :: 0 <= k < Budget ==> pair.like[k] == Answer(Response(500, NoHint))
    ensures MakeRow(index, token, hash, pair).likeStatus == Text(NoResponse)
    ensures MakeRow(index, token, hash, pair).note == FailedRetries
  {
    ServerDown(pair.like);
  }

  /** pairs[j] is what the server answers one account for hash j. */
  predicate Paired(pairs: seq<PairScript>, hashCount: nat) {
    |pairs| >= hashCount && forall j :: 0 <= j < hashCount ==> Scripted(pairs[j])
  }

  /** scripts[i][j] is what the server answers for token i and hash j. */
  predicate Covers(scripts: seq<seq<PairScript>>, tokenCount: nat, hashCount: nat) {
    |scripts| >= tokenCount && forall i :: 0 <= i < tokenCount ==> Paired(scripts[i], hashCount)
  }

  /** The rows of the account numbered `index`: one per hash, in hash order. */
  function TokenRows(index: nat, token: string, hashes: seq<string>, pairs: seq<PairScript>): (rows: seq<Row>)
    requires Paired(pairs, |hashes|)
    ensures |rows| == |hashes|
  {
    seq(|hashes|, j requires 0 <= j < |hashes| => MakeRow(index, token, hashes[j], pairs[j]))
  }

  /** The rows of every token, token by token. */
  function Grid(tokens: seq<string>, hashes: seq<string>, scripts: seq<seq<PairScript>>): (g: seq<seq<Row>>)
    requires Covers(scripts, |tokens|, |hashes|)
    ensures |g| == |tokens| && Rectangular(g, |hashes|)
  {
    seq(|tokens|, i requires 0 <= i < |tokens| => TokenRows(i + 1, tokens[i], hashes, scripts[i]))
  }

  /** The data rows main writes: the rows of each token in turn. */
  function Rows(tokens: seq<string>, hashes: seq<string>, scripts: seq<seq<PairScript>>): seq<Row>
    requires Covers(scripts, |tokens|, |hashes|)
  {
    Flatten(Grid(tokens, hashes, scripts), |tokens|)
  }

  /** main writes |tokens| * |hashes| data rows. */
  lemma MatrixSize(tokens: seq<string>, hashes: seq<string>, scripts: seq<seq<PairScript>>)
    requires Covers(scripts, |tokens|, |hashes|)
    ensures |Rows(tokens, hashes, scripts)| == |tokens| * |hashes|
  {
    FlattenSize(Grid(tokens, hashes, scripts), |hashes|);
  }

  /**
   Row i * |hashes| + j is the row of token i + 1 and hash j: tokens outer, hashes inner,
   each pair exactly once.
   */
  lemma MatrixAt(tokens: seq<string>, hashes: seq<string>, scripts: seq<seq<PairScript>>, i: nat, j: nat)
    requires Covers(scripts, |tokens|, |hashes|)
    requires i < |tokens| && j < |hashes|
    ensures i * |hashes| + j < |Rows(tokens, hashes, scripts)|
    ensures Rows(tokens, hashes, scripts)[i * |hashes| + j] == MakeRow(i + 1, tokens[i], hashes[j], scripts[i][j])
  {
    var g := Grid(tokens, hashes, scripts);
    FlattenIndex(g, |hashes|, i, j);
    assert g[i][j] == MakeRow(i + 1, tokens[i], hashes[j], scripts[i][j]);
  }

  /** The rows of token i + 1 are consecutive, in hash order, from row i * |hashes| on. */
  lemma MatrixTokenSlice(tokens: seq<string>, hashes: seq<string>, scripts: seq<seq<PairScript>>, i: nat)
    requires Covers(scripts, |tokens|, |hashes|) && i < |tokens|
    ensures i * |hashes| + |hashes| <= |Rows(tokens, hashes, scripts)|
    ensures Rows(tokens, hashes, scripts)[i * |hashes|..i * |hashes| + |hashes|] == TokenRows(i + 1, tokens[i], hashes, scripts[i])
  {
    var g := Grid(tokens, hashes, scripts);
    assert Rows(tokens, hashes, scripts) == Flatten(g, |g|);
    FlattenSlice(g, |hashes|, i);
    GridRow(tokens, hashes, scripts, i);
  }

  lemma GridRow(tokens: seq<string>, hashes: seq<string>, scripts: seq<seq<PairScript>>, i: nat)
    requires Covers(scripts, |tokens|, |hashes|) && i < |tokens|
    ensures Grid(tokens, hashes, scripts)[i] == TokenRows(i + 1, tokens[i], hashes, scripts[i])
  {
  }

  /** The row of one pair, spelled out from the two requests' results as the inner loop builds it. */
  lemma RowOfRequests(index: nat, token: string, preview: string, hash: string, pair: PairScript, like: Retried, recast: Retried)
    requires Scripted(pair) && preview == Preview(token)
    requires like == Retry(pair.like) && recast == Retry(pair.recast)
    ensures MakeRow(index, token, hash, pair) ==
      Row(index, preview, hash,
          if like.result.Some? then Num(like.result.value.status) else Text(NoResponse),
          if recast.result.Some? then Num(recast.result.value.status) else Text(NoResponse),
          if like.result.None? || recast.result.None? then FailedRetries else "")
  {
  }

  /**
   The inner loop of main, over the hashes for the account numbered `index`: the like
   and recast requests of each pair and its row. `preview` is computed by the outer loop.
   */
  method WriteTokenRows(index: nat, token: string, preview: string, hashes: seq<string>, pairs: seq<PairScript>)
    returns (rows: seq<Row>)
    requires Paired(pairs, |hashes|) && preview == Preview(token)
    ensures rows == TokenRows(index, token, hashes, pairs)
  {
    ghost var spec := TokenRows(index, token, hashes, pairs);
    rows := [];
    for j := 0 to |hashes|
      invariant rows == spec[..j]
    {
      var ch := hashes[j];
      var like, recast := LikeAndRecast(pairs[j]);
      var likeStatus := if like.result.Some? then Num(like.result.value.status) else Text(NoResponse);
      var recastStatus := if recast.result.Some? then Num(recast.result.value.status) else Text(NoResponse);
      var note := "";
      if like.result.None? || recast.result.None? {
        note := FailedRetries;
      }
      RowOfRequests(index, token, preview, ch, pairs[j], like, recast);
      assert spec[j] == MakeRow(index, token, ch, pairs[j]);
      assert spec[..j + 1] == spec[..j] + [spec[j]];
      rows := rows + [Row(index, preview, ch, likeStatus, recastStatus, note)];
    }
    assert spec[..|hashes|] == spec;
  }

  /** The outer loop of main: the accounts in order, numbered from 1, each with its preview. */
  method WriteRows(tokens: seq<string>, hashes: seq<string>, scripts: seq<seq<PairScript>>) returns (rows: seq<Row>)
    requires Covers(scripts, |tokens|, |hashes|)
    ensures rows == Rows(tokens, hashes, scripts)
  {
    ghost var grid := Grid(tokens, hashes, scripts);
    rows := [];
    var i := 1;
    while i <= |tokens|
      invariant 1 <= i <= |tokens| + 1
      invariant rows == Flatten(grid, i - 1)
    {
      var token := tokens[i - 1];
      var preview := if token != [] then Take(token, PreviewLength) + Ellipsis else "";
      assert preview == Preview(token);
      var tokenRows := WriteTokenRows(i, token, preview, hashes, scripts[i - 1]);
      GridRow(tokens, hashes, scripts, i - 1);
      assert Flatten(grid, i) == Flatten(grid, i - 1) + tokenRows;
      rows := rows + tokenRows;
      i := i + 1;
    }
  }

  /**
   main. A missing or blank token file or hash file stops the run before the CSV file is
   opened (None). Otherwise: the header, then one row per (token, hash) pair.
   */
  method RunBatch(tokenFile: Option<seq<string>>, hashFile: Option<seq<string>>, scripts: seq<seq<PairScript>>)
    returns (csv: Option<Csv>)
    requires Covers(scripts, |LoadLines(tokenFile)|, |LoadLines(hashFile)|)
    ensures csv.None? <==> LoadLines(tokenFile) == [] || LoadLines(hashFile) == []
    ensures csv.Some? ==>
      csv.value == Csv(Header, Rows(NormalizeAll(LoadLines(tokenFile)), LoadLines(hashFile), scripts))
  {
    var rawTokens := LoadLines(tokenFile);
    if rawTokens == [] {
      return None;
    }
    var hashes := LoadLines(hashFile);
    if hashes == [] {
      return None;
    }
    var tokens := NormalizeAll(rawTokens);
    var rows := WriteRows(tokens, hashes, scripts);
    csv := Some(Csv(Header, rows));
  }
}
