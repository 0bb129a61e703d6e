/**
 * The story handlers (controllers/user_story_controller.go): AddStory stores
 * a story for the caller, GetStory lists the caller's stories. Both run the
 * bearer-header gate first and know the caller only by the user id the
 * token verifier returns.
 */
module UserStoryController {
  import opened Wrappers
  import opened Models
  import opened Authorization
  import opened AuthController

  /** The JSON body of an add-story request. */
  datatype AddStoryRequest = AddStoryRequest(story: StoryObject)

  /**
   * AddStory. `body` is the decoded request body (None when decoding failed),
   * `marshal` json.Marshal of the story, `insertStory` the INSERT of a story's
   * JSON text under a user id.
   */
  function AddStory(header: string, parseToken: string -> Option<int>, body: Option<AddStoryRequest>,
                    marshal: StoryObject -> Option<string>, insertStory: (string, int) -> bool): (resp: HttpResponse)
    ensures Authorize(header, parseToken).Err? ==> resp == GateRefusal(Authorize(header, parseToken).error)
    ensures Authorize(header, parseToken).Ok? && body.None? ==>
      resp == RespondWithError(StatusBadRequest, "Invalid request payload")
    ensures resp.code == StatusOK <==>
      Authorize(header, parseToken).Ok? && body.Some? && marshal(body.value.story).Some? &&
      insertStory(marshal(body.value.story).value, Authorize(header, parseToken).value)
    ensures Authorize(header, parseToken).Ok? && body.Some? && marshal(body.value.story).None? ==>
      resp == RespondWithError(StatusInternalServerError, "Failed to encode story")
    ensures Authorize(header, parseToken).Ok? && body.Some? && marshal(body.value.story).Some? &&
            !insertStory(marshal(body.value.story).value, Authorize(header, parseToken).value) ==>
      resp == RespondWithError(StatusInternalServerError, "Failed to store story")
    ensures resp.code == StatusOK ==> resp.body == StoryAck(true, "Story added successfully")
    ensures resp.code != StatusOK ==> resp.body.Envelope? && !resp.body.status
  {
    match Authorize(header, parseToken)
    case Err(e) => GateRefusal(e)
    case Ok(userId) =>
      match body
      case None => RespondWithError(StatusBadRequest, "Invalid request payload")
      case Some(req) =>
        match marshal(req.story)
        case None => RespondWithError(StatusInternalServerError, "Failed to encode story")
        case Some(storyJSON) =>
          if !insertStory(storyJSON, userId) then RespondWithError(StatusInternalServerError, "Failed to store story")
          else HttpResponse(StatusOK, StoryAck(true, "Story added successfully"))
  }

  /**
   * The gate runs before the body is read: a refused token gives the same
   * 401 whatever the body is, even a malformed one.
   */
  lemma AddStoryGateBeforeBody(header: string, parseToken: string -> Option<int>,
                               body1: Option<AddStoryRequest>, body2: Option<AddStoryRequest>,
                               marshal: StoryObject -> Option<string>, insertStory: (string, int) -> bool)
    requires Authorize(header, parseToken).Err?
    ensures AddStory(header, parseToken, body1, marshal, insertStory) == AddStory(header, parseToken, body2, marshal, insertStory)
    ensures AddStory(header, parseToken, body1, marshal, insertStory).code == StatusUnauthorized
  {
  }

  /**
   * The story is stored under the id from the token and no other: two stores
   * that behave alike for that id give the same response.
   */
  lemma AddStoryUsesVerifiedIdOnly(header: string, parseToken: string -> Option<int>, body: Option<AddStoryRequest>,
                                   marshal: StoryObject -> Option<string>,
                                   store1: (string, int) -> bool, store2: (string, int) -> bool)
    ensures Authorize(header, parseToken).Ok? &&
            (forall json :: store1(json, Authorize(header, parseToken).value) == store2(json, Authorize(header, parseToken).value)) ==>
            AddStory(header, parseToken, body, marshal, store1) == AddStory(header, parseToken, body, marshal, store2)
  {
  }

  /**
   * All three protected handlers refuse a request the gate refuses, with the
   * same messages; GetUserProfile alone writes the first two as plain text.
   * (GetStory states the same in its own contract.)
   */
  lemma ProtectedHandlersShareGate(header: string, parseToken: string -> Option<int>,
                                   findProfileById: int -> Option<GetUserProfileModel>, body: Option<AddStoryRequest>,
                                   marshal: StoryObject -> Option<string>, insertStory: (string, int) -> bool)
    requires Authorize(header, parseToken).Err?
    ensures var e := Authorize(header, parseToken).error;
            var story := AddStory(header, parseToken, body, marshal, insertStory);
            var profile := GetUserProfile(header, parseToken, findProfileById);
            story.code == StatusUnauthorized && profile.code == StatusUnauthorized &&
            story.body.message == AuthErrorMessage(e) &&
            (e == InvalidOrExpiredToken ==> profile == story) &&
            (e != InvalidOrExpiredToken ==> profile.body == PlainText(story.body.message))
  {
  }

  // ---------------------------------------------------------------- GetStory

  /** One row of the stories query, as Scan sees it. */
  datatype StoryRow = ScanFailed | NullStory | StoryText(text: string)

  /** A row the loop gets past: not a scan failure, and JSON that parses if it is not NULL. */
  predicate RowReadable(row: StoryRow, unmarshal: string -> Option<StoryObject>)
  {
    match row
    case ScanFailed => false
    case NullStory => true
    case StoryText(t) => unmarshal(t).Some?
  }

  /** The message a row that stops the loop is reported with. */
  function FailureMessage(row: StoryRow): string
  {
    if row.ScanFailed? then "Failed to read story" else "Failed to parse story data"
  }

  /**
   * What reading the rows in order yields: the parsed non-NULL rows, or the
   * error of the first row that cannot be read. Defined on the last row, in
   * the order the loop extends its list.
   */
  function CollectStories(rows: seq<StoryRow>, unmarshal: string -> Option<StoryObject>): Result<seq<StoryObject>, string>
  {
    if rows == [] then Ok([])
    else match CollectStories(rows[..|rows| - 1], unmarshal)
      case Err(m) => Err(m)
      case Ok(stories) =>
        match rows[|rows| - 1]
        case ScanFailed => Err(FailureMessage(ScanFailed))
        case NullStory => Ok(stories)
        case StoryText(t) =>
          match unmarshal(t)
          case None => Err(FailureMessage(StoryText(t)))
          case Some(story) => Ok(stories + [story])
  }

  /** The texts of the non-NULL rows, in row order: an independent reference. */
  function StoryTexts(rows: seq<StoryRow>): seq<string>
  {
    if rows == [] then [] else (if rows[0].StoryText? then [rows[0].text] else []) + StoryTexts(rows[1..])
  }

  lemma {:induction false} StoryTextsSnoc(rows: seq<StoryRow>, row: StoryRow)
    ensures StoryTexts(rows + [row]) == StoryTexts(rows) + (if row.StoryText? then [row.text] else [])
  {
    var tail := if row.StoryText? then [row.text] else [];
    if rows == [] {
      assert [] + [row] == [row];
      assert [row][1..] == [];
      assert StoryTexts([row]) == tail + StoryTexts([]);
    } else {
      var whole := rows + [row];
      var head := if rows[0].StoryText? then [rows[0].text] else [];
      assert whole[0] == rows[0];
      assert whole[1..] == rows[1..] + [row];
      StoryTextsSnoc(rows[1..], row);
      assert StoryTexts(whole) == head + StoryTexts(rows[1..] + [row]);
      assert StoryTexts(whole) == head + (StoryTexts(rows[1..]) + tail);
      assert StoryTexts(rows) == head + StoryTexts(rows[1..]);
    }
  }

  /**
   * The rows are all read exactly when every row is readable, and then the
   * list is the non-NULL rows' parsed JSON, in row order; NULL rows are skipped.
   */
  lemma {:induction false} CollectedStories(rows: seq<StoryRow>, unmarshal: string -> Option<StoryObject>)
    ensures CollectStories(rows, unmarshal).Ok? <==> forall k :: 0 <= k < |rows| ==> RowReadable(rows[k], unmarshal)
    ensures CollectStories(rows, unmarshal).Ok? ==>
      var stories := CollectStories(rows, unmarshal).value;
      |stories| == |StoryTexts(rows)| &&
      forall j :: 0 <= j < |stories| ==> unmarshal(StoryTexts(rows)[j]) == Some(stories[j])
  {
    CollectOkIff(rows, unmarshal);
    CollectedList(rows, unmarshal);
  }

  /** Reading all rows succeeds exactly when every row is readable. */
  lemma {:induction false} CollectOkIff(rows: seq<StoryRow>, unmarshal: string -> Option<StoryObject>)
    ensures CollectStories(rows, unmarshal).Ok? <==> forall k :: 0 <= k < |rows| ==> RowReadable(rows[k], unmarshal)
  {
    if rows != [] {
      var init := rows[..|rows| - 1];
      var last := rows[|rows| - 1];
      CollectOkIff(init, unmarshal);
      assert forall k :: 0 <= k < |init| ==> rows[k] == init[k];
      assert CollectStories(rows, unmarshal).Ok? <==>
             CollectStories(init, unmarshal).Ok? && RowReadable(last, unmarshal);
      if CollectStories(init, unmarshal).Err? {
        var k :| 0 <= k < |init| && !RowReadable(init[k], unmarshal);
        assert !RowReadable(rows[k], unmarshal);
      }
    }
  }

  /** A successful read lists the parsed texts of the non-NULL rows, one story per text, in order. */
  lemma {:induction false} CollectedList(rows: seq<StoryRow>, unmarshal: string -> Option<StoryObject>)
    ensures CollectStories(rows, unmarshal).Ok? ==>
      var stories := CollectStories(rows, unmarshal).value;
      |stories| == |StoryTexts(rows)| &&
      forall j :: 0 <= j < |stories| ==> unmarshal(StoryTexts(rows)[j]) == Some(stories[j])
  {
    if rows != [] && CollectStories(rows, unmarshal).Ok? {
      var init := rows[..|rows| - 1];
      var last := rows[|rows| - 1];
      assert init + [last] == rows;
      CollectedList(init, unmarshal);
      StoryTextsSnoc(init, last);
      var prev := CollectStories(init, unmarshal).value;
      var texts := StoryTexts(init);
      var stories := CollectStories(rows, unmarshal).value;
      match last {
        case NullStory =>
          assert stories == prev && StoryTexts(rows) == texts;
        case StoryText(t) =>
          assert stories == prev + [unmarshal(t).value];
          assert StoryTexts(rows) == texts + [t];
        case ScanFailed =>
      }
    }
  }

  /**
   * A failed read is decided by the first unreadable row: every row before it
   * is readable, and its message is the one reported.
   */
  lemma {:induction false} FirstFailureDecides(rows: seq<StoryRow>, unmarshal: string -> Option<StoryObject>) returns (k: nat)
    requires CollectStories(rows, unmarshal).Err?
    ensures k < |rows| && !RowReadable(rows[k], unmarshal)
    ensures forall j :: 0 <= j < k ==> RowReadable(rows[j], unmarshal)
    ensures CollectStories(rows, unmarshal).error == FailureMessage(rows[k])
  {
    var init := rows[..|rows| - 1];
    if CollectStories(init, unmarshal).Err? {
      k := FirstFailureDecides(init, unmarshal);
      assert rows[k] == init[k];
      assert forall j :: 0 <= j < k ==> rows[j] == init[j];
    } else {
      k := |rows| - 1;
      CollectedStories(init, unmarshal);
      assert forall j :: 0 <= j < k ==> rows[j] == init[j];
    }
  }

  /** Once a prefix of the rows fails, reading the remaining rows does not change the outcome. */
  lemma {:induction false} FailureIsFinal(rows: seq<StoryRow>, n: nat, unmarshal: string -> Option<StoryObject>)
    requires n <= |rows| && CollectStories(rows[..n], unmarshal).Err?
    ensures CollectStories(rows, unmarshal) == CollectStories(rows[..n], unmarshal)
    decreases |rows| - n
  {
    if n < |rows| {
      assert rows[..|rows| - 1][..n] == rows[..n];
      FailureIsFinal(rows[..|rows| - 1], n, unmarshal);
    } else {
      assert rows[..n] == rows;
    }
  }

  /**
   * The row loop of GetStory: each row is scanned and, unless NULL, parsed and
   * appended; the first row that cannot be scanned or parsed ends the loop
   * with its message and the list built so far is dropped.
   */
  method ReadStories(rows: seq<StoryRow>, unmarshal: string -> Option<StoryObject>)
    returns (result: Result<seq<StoryObject>, string>)
    ensures result == CollectStories(rows, unmarshal)
    ensures result.Err? ==> result.error in {"Failed to read story", "Failed to parse story data"}
  {
    var stories: seq<StoryObject> := [];
    var i := 0;
    while i < |rows|
      invariant 0 <= i <= |rows|
      invariant CollectStories(rows[..i], unmarshal) == Ok(stories)
    {
      assert rows[..i + 1][..i] == rows[..i];
      assert rows[..i + 1][i] == rows[i];
      match rows[i] {
        case ScanFailed =>
          FailureIsFinal(rows, i + 1, unmarshal);
          return Err("Failed to read story");
        case NullStory =>
        case StoryText(t) =>
          var parsed := unmarshal(t);
          if parsed.None? {
            FailureIsFinal(rows, i + 1, unmarshal);
            return Err("Failed to parse story data");
          }
          stories := stories + [parsed.value];
      }
      i := i + 1;
    }
    assert rows[..i] == rows;
    result := Ok(stories);
  }

  /**
   * GetStory. `queryStories` is the SELECT of a user's story rows (None when
   * the query fails), `unmarshal` json.Unmarshal of one row's text. The list
   * sent is the parsed non-NULL rows of the caller's id, in row order; any
   * row that cannot be read aborts with a 500 and no list.
   */
  method GetStory(header: string, parseToken: string -> Option<int>,
                  queryStories: int -> Option<seq<StoryRow>>, unmarshal: string -> Option<StoryObject>)
    returns (resp: HttpResponse)
    ensures Authorize(header, parseToken).Err? ==> resp == GateRefusal(Authorize(header, parseToken).error)
    ensures Authorize(header, parseToken).Ok? && queryStories(Authorize(header, parseToken).value).None? ==>
      resp == RespondWithError(StatusInternalServerError, "Failed to retrieve stories")
    ensures Authorize(header, parseToken).Ok? && queryStories(Authorize(header, parseToken).value).Some? ==>
      var rows := queryStories(Authorize(header, parseToken).value).value;
      match CollectStories(rows, unmarshal)
      case Ok(stories) =>
        resp == HttpResponse(StatusOK, Envelope(true, "Stories retrieved successfully", StoryList(stories), ""))
      case Err(m) => resp == RespondWithError(StatusInternalServerError, m)
  {
    var auth := Authorize(header, parseToken);
    if auth.Err? {
      return GateRefusal(auth.error);
    }
    var userId := auth.value;
    var queried := queryStories(userId);
    if queried.None? {
      return RespondWithError(StatusInternalServerError, "Failed to retrieve stories");
    }
    var read := ReadStories(queried.value, unmarshal);
    match read {
      case Err(m) =>
        resp := RespondWithError(StatusInternalServerError, m);
      case Ok(stories) =>
        resp := HttpResponse(StatusOK, Envelope(true, "Stories retrieved successfully", StoryList(stories), ""));
    }
  }
}
