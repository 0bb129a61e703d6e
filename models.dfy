/**
 * The request, row and response records of the service as plain values
 * (the files under models/), and the HTTP status codes the handlers use.
 */
module Models {

  /** The JSON body of a login request (models/login_user_model.go). */
  datatype LoginUserModel = LoginUserModel(email: string, password: string)

  /** A user as registered and as read back from the users table (models/user_model.go). */
  datatype RegisterUserModel =
    RegisterUserModel(id: int, fullName: string, email: string, profilePic: string, password: string)

  /** What the profile endpoint returns about a user (models/user_model.go). */
  datatype GetUserProfileModel = GetUserProfileModel(fullName: string, email: string, profilePic: string)

  /** What the login endpoint returns about a user (models/login_user_model.go). */
  datatype LoginResponse = LoginResponse(id: int, fullName: string, email: string, profilePic: string)

  /**
   * A decoded story: the JSON object a client stored. Its values are kept as
   * their text; their structure is not part of this model.
   */
  type StoryObject = map<string, string>

  /** The `data` member of the response envelope. */
  datatype Data =
    | NoData                                    // struct{}{}, the data of every error envelope
    | Registered(id: int, fullName: string, email: string, profilePic: string)
    | LoggedIn(user: LoginResponse)
    | Profile(profile: GetUserProfileModel)
    | StoryList(stories: seq<StoryObject>)

  /** The body a handler writes. */
  datatype Body =
      /** models.Response; a token equal to "" is omitted from the JSON */
    | Envelope(status: bool, message: string, data: Data, token: string)
      /** the acknowledgement AddStory sends: a status and a message, no data */
    | StoryAck(status: bool, message: string)
      /** a plain-text error written by http.Error */
    | PlainText(text: string)

  datatype HttpResponse = HttpResponse(code: int, body: Body)

  const StatusOK := 200
  const StatusBadRequest := 400
  const StatusUnauthorized := 401
  const StatusNotFound := 404
  const StatusConflict := 409
  const StatusInternalServerError := 500
}
