/**
 * The student handlers of package `transport`: the two request-to-student
 * conversions and, for each endpoint, the decision from the decoded body,
 * the validation outcome, the path id and the service's answer to the
 * service call made and the writes sent to the `ResponseWriter`. JSON
 * decoding, the validator and path extraction are inputs.
 */
module Transport {
  import opened Common
  import opened Student

  datatype PostStudentRequest = PostStudentRequest(
    id: string,
    fname: string,
    lname: string,
    dateOfBirth: CustomTime,
    email: string,
    address: string,
    gender: string,
    createdBy: string,
    createdOn: Time,
    updatedBy: string,
    updatedOn: Time)

  datatype UpdateStudentRequest = UpdateStudentRequest(
    fname: string,
    lname: string,
    dateOfBirth: CustomTime,
    email: string,
    address: string,
    gender: string,
    createdBy: string,
    createdOn: Time,
    updatedBy: string,
    updatedOn: Time)

  /** `studetFromPostStudentRequest`: every field but the id is copied. */
  function StudentFromPostRequest(u: PostStudentRequest): (s: Student)
    ensures s.id == ""
  {
    Student("", u.fname, u.lname, u.email, u.gender, u.dateOfBirth, u.address,
            u.createdBy, u.createdOn, u.updatedBy, u.updatedOn)
  }

  /** `studentFromUpdateStudentRequest`: the ten mutable fields are copied. */
  function StudentFromUpdateRequest(u: UpdateStudentRequest): (s: Student)
    ensures s.id == ""
  {
    Student("", u.fname, u.lname, u.email, u.gender, u.dateOfBirth, u.address,
            u.createdBy, u.createdOn, u.updatedBy, u.updatedOn)
  }

  /** The create request a client sends for the fields of `s`. */
  function PostRequestOf(s: Student): PostStudentRequest
  {
    PostStudentRequest(s.id, s.fname, s.lname, s.dateOfBirth, s.email, s.address,
                       s.gender, s.createdBy, s.createdOn, s.updatedBy, s.updatedOn)
  }

  /** The update request a client sends for the fields of `s`. */
  function UpdateRequestOf(s: Student): UpdateStudentRequest
  {
    UpdateStudentRequest(s.fname, s.lname, s.dateOfBirth, s.email, s.address,
                         s.gender, s.createdBy, s.createdOn, s.updatedBy, s.updatedOn)
  }

  /** The create conversion loses the id and nothing else, in both directions. */
  lemma PostConversionRoundTrip(s: Student, u: PostStudentRequest)
    ensures StudentFromPostRequest(PostRequestOf(s)) == s.(id := "")
    ensures PostRequestOf(StudentFromPostRequest(u)) == u.(id := "")
  {
  }

  /** Two create requests give the same student exactly when they differ at most in the id. */
  lemma PostConversionIgnoresOnlyId(u: PostStudentRequest, v: PostStudentRequest)
    ensures StudentFromPostRequest(u) == StudentFromPostRequest(v) <==> u.(id := "") == v.(id := "")
  {
    if StudentFromPostRequest(u) == StudentFromPostRequest(v) {
      PostConversionRoundTrip(ZeroStudent, u);
      PostConversionRoundTrip(ZeroStudent, v);
    }
  }

  /** The update conversion is a bijection onto the students with an empty id. */
  lemma UpdateConversionRoundTrip(s: Student, u: UpdateStudentRequest)
    ensures StudentFromUpdateRequest(UpdateRequestOf(s)) == s.(id := "")
    ensures UpdateRequestOf(StudentFromUpdateRequest(u)) == u
  {
  }

  /** An error from the service; `fetching` is `errors.Is(err, student.ErrFetchingStudent)`. */
  datatype ServiceError = ServiceError(fetching: bool)

  /** The one call a handler makes on its `StudentService`. */
  datatype ServiceCall =
    | CreateCall(std: Student)
    | GetCall(id: string)
    | DeleteCall(id: string)
    | ListCall
    | UpdateCall(id: string, std: Student)

  /** What a body write carries: a JSON encoding or the plain text of `http.Error`. */
  datatype Body =
    | StudentJson(student: Student)
    | StudentsJson(students: seq<Student>)
    | MessageJson(message: string)
    | Text(text: string)

  /** One action on the `ResponseWriter`, in the order the handler performs it. */
  datatype Write =
    | SetHeader(name: string, value: string)
    | WriteHeader(code: int)
    | WriteBody(body: Body)

  datatype Response = Response(call: Option<ServiceCall>, writes: seq<Write>)

  const StatusOK := 200
  const StatusCreated := 201
  const StatusBadRequest := 400
  const StatusNotFound := 404
  const StatusInternalServerError := 500

  /** `http.Error(w, msg, code)`. */
  function HttpError(msg: string, code: int): seq<Write>
  {
    [SetHeader("Content-Type", "text/plain; charset=utf-8"),
     SetHeader("X-Content-Type-Options", "nosniff"),
     WriteHeader(code),
     WriteBody(Text(msg + "\n"))]
  }

  /**
   * The status the client receives: that of the first `WriteHeader`, or 200
   * when a body is written first or the handler writes nothing at all.
   */
  function WireStatus(ws: seq<Write>): int
  {
    if ws == [] then StatusOK
    else match ws[0]
      case WriteHeader(code) => code
      case WriteBody(_) => StatusOK
      case SetHeader(_, _) => WireStatus(ws[1..])
  }

  /** The value a header has on the wire: the last one set before the response is committed. */
  function SentHeader(ws: seq<Write>, name: string): Option<string>
  {
    if ws == [] then None
    else match ws[0]
      case SetHeader(n, v) =>
        var later := SentHeader(ws[1..], name);
        if later.Some? then later else if n == name then Some(v) else None
      case _ => None
  }

  /** Everything written to the body, in order. */
  function Bodies(ws: seq<Write>): seq<Body>
  {
    if ws == [] then []
    else match ws[0]
      case WriteBody(b) => [b] + Bodies(ws[1..])
      case _ => Bodies(ws[1..])
  }

  /** Setting a header writes neither a status nor a body. */
  lemma SetHeaderWritesNothing(name: string, value: string, ws: seq<Write>)
    ensures WireStatus([SetHeader(name, value)] + ws) == WireStatus(ws)
    ensures Bodies([SetHeader(name, value)] + ws) == Bodies(ws)
  {
    assert ([SetHeader(name, value)] + ws)[1..] == ws;
  }

  /** Writing the status and then a body: the client sees that status and exactly that body. */
  lemma StatusThenBody(code: int, b: Body)
    ensures WireStatus([WriteHeader(code), WriteBody(b)]) == code
    ensures Bodies([WriteHeader(code), WriteBody(b)]) == [b]
  {
    assert [WriteHeader(code), WriteBody(b)][1..] == [WriteBody(b)];
    assert [WriteBody(b)][1..] == [];
    assert Bodies([WriteBody(b)]) == [b] + Bodies([]);
  }

  /** `http.Error` answers with its code, a plain-text content type and the message as body. */
  lemma HttpErrorWrites(msg: string, code: int)
    ensures WireStatus(HttpError(msg, code)) == code
    ensures SentHeader(HttpError(msg, code), "Content-Type") == Some("text/plain; charset=utf-8")
    ensures Bodies(HttpError(msg, code)) == [Text(msg + "\n")]
  {
    var ws := HttpError(msg, code);
    assert ws[1..] == [ws[1]] + ws[2..];
    SetHeaderWritesNothing("X-Content-Type-Options", "nosniff", ws[2..]);
    SetHeaderWritesNothing("Content-Type", "text/plain; charset=utf-8", ws[1..]);
    StatusThenBody(code, Text(msg + "\n"));
    assert ws[2..] == [WriteHeader(code), WriteBody(Text(msg + "\n"))];
    assert SentHeader(ws[2..], "Content-Type") == None;
    assert SentHeader(ws[1..], "Content-Type") == None;
  }

  /**
   * `CreateStudent`: `decoded` is the decoded body (`None` when decoding
   * fails), `validates` the validator's verdict on it, `result` the
   * service's answer to the call.
   */
  function CreateStudentHandler(
    decoded: Option<PostStudentRequest>, validates: bool, result: Result<Student, ServiceError>)
    : (resp: Response)
    ensures decoded.None? ==> resp == Response(None, [])
    ensures resp.call.Some? <==> decoded.Some? && validates
    ensures resp.call.Some? ==> resp.call.value == CreateCall(StudentFromPostRequest(decoded.value))
    ensures decoded.Some? && !validates ==>
      WireStatus(resp.writes) == StatusBadRequest && Bodies(resp.writes) == []
    ensures resp.call.Some? && result.Err? ==> WireStatus(resp.writes) == StatusInternalServerError
    ensures resp.call.Some? && result.Ok? ==>
      && WireStatus(resp.writes) == StatusCreated
      && SentHeader(resp.writes, "Content-Type") == Some("application/json")
      && Bodies(resp.writes) == [StudentJson(result.value)]
  {
    if decoded.None? then Response(None, [])
    else if !validates then Response(None, [WriteHeader(StatusBadRequest)])
    else
      var std := StudentFromPostRequest(decoded.value);
      var call := Some(CreateCall(std));
      match result
      case Err(_) =>
        HttpErrorWrites("Failed to create student", StatusInternalServerError);
        Response(call, HttpError("Failed to create student", StatusInternalServerError))
      case Ok(created) =>
        SetHeaderWritesNothing("Content-Type", "application/json", [WriteHeader(StatusCreated), WriteBody(StudentJson(created))]);
        StatusThenBody(StatusCreated, StudentJson(created));
        Response(call, [SetHeader("Content-Type", "application/json"),
                        WriteHeader(StatusCreated),
                        WriteBody(StudentJson(created))])
  }

  /** `GetStudent`: `id` is the path variable, empty when absent. */
  function GetStudentHandler(id: string, result: Result<Student, ServiceError>): (resp: Response)
    ensures id == "" ==>
      resp.call.None? && WireStatus(resp.writes) == StatusBadRequest && Bodies(resp.writes) == []
    ensures id != "" ==> resp.call == Some(GetCall(id))
    ensures id != "" && result.Err? ==>
      && WireStatus(resp.writes) == (if result.error.fetching then StatusNotFound else StatusInternalServerError)
      && Bodies(resp.writes) == []
    ensures id != "" && result.Ok? ==>
      WireStatus(resp.writes) == StatusOK && Bodies(resp.writes) == [StudentJson(result.value)]
  {
    if id == "" then Response(None, [WriteHeader(StatusBadRequest)])
    else
      var call := Some(GetCall(id));
      match result
      case Err(e) =>
        if e.fetching then Response(call, [WriteHeader(StatusNotFound)])
        else Response(call, [WriteHeader(StatusInternalServerError)])
      case Ok(std) => Response(call, [WriteBody(StudentJson(std))])
  }

  /** `DeleteStudent`: `result` is the service's error, if any. */
  function DeleteStudentHandler(id: string, result: Option<ServiceError>): (resp: Response)
    ensures id == "" ==>
      resp.call.None? && WireStatus(resp.writes) == StatusBadRequest && Bodies(resp.writes) == []
    ensures id != "" ==> resp.call == Some(DeleteCall(id))
    ensures id != "" && result.Some? ==> resp.writes == []
    ensures id != "" && result.None? ==>
      WireStatus(resp.writes) == StatusOK && Bodies(resp.writes) == [MessageJson("Successfully Deleted")]
  {
    if id == "" then Response(None, [WriteHeader(StatusBadRequest)])
    else
      var call := Some(DeleteCall(id));
      if result.Some? then Response(call, [])
      else Response(call, [WriteBody(MessageJson("Successfully Deleted"))])
  }

  /** `GetStudents`. */
  function GetStudentsHandler(result: Result<seq<Student>, ServiceError>): (resp: Response)
    ensures resp.call == Some(ListCall)
    ensures result.Err? ==>
      && WireStatus(resp.writes) == (if result.error.fetching then StatusNotFound else StatusInternalServerError)
      && Bodies(resp.writes) == []
    ensures result.Ok? ==>
      && WireStatus(resp.writes) == StatusOK
      && SentHeader(resp.writes, "Content-Type") == Some("application/json")
      && Bodies(resp.writes) == [StudentsJson(result.value)]
  {
    var call := Some(ListCall);
    match result
    case Err(e) =>
      if e.fetching then Response(call, [WriteHeader(StatusNotFound)])
      else Response(call, [WriteHeader(StatusInternalServerError)])
    case Ok(students) =>
      SetHeaderWritesNothing("Content-Type", "application/json", [WriteBody(StudentsJson(students))]);
      Response(call, [SetHeader("Content-Type", "application/json"), WriteBody(StudentsJson(students))])
  }

  /** `UpdateStudent`: there is no empty-id guard; the path id goes to the service as it is. */
  function UpdateStudentHandler(
    id: string, decoded: Option<UpdateStudentRequest>, validates: bool, result: Result<Student, ServiceError>)
    : (resp: Response)
    ensures decoded.None? ==> resp == Response(None, [])
    ensures resp.call.Some? <==> decoded.Some? && validates
    ensures resp.call.Some? ==> resp.call.value == UpdateCall(id, StudentFromUpdateRequest(decoded.value))
    ensures decoded.Some? && !validates ==>
      WireStatus(resp.writes) == StatusBadRequest && Bodies(resp.writes) == []
    ensures resp.call.Some? && result.Err? ==> resp.writes == []
    ensures resp.call.Some? && result.Ok? ==>
      WireStatus(resp.writes) == StatusOK && Bodies(resp.writes) == [StudentJson(result.value)]
  {
    if decoded.None? then Response(None, [])
    else if !validates then Response(None, [WriteHeader(StatusBadRequest)])
    else
      var std := StudentFromUpdateRequest(decoded.value);
      var call := Some(UpdateCall(id, std));
      match result
      case Err(_) => Response(call, [])
      case Ok(updated) => Response(call, [WriteBody(StudentJson(updated))])
  }

  /**
   * When a handler does not call the service, its response cannot depend
   * on what the service would have answered.
   */
  lemma UncalledServiceIsIrrelevant(
    decoded: Option<PostStudentRequest>, update: Option<UpdateStudentRequest>, validates: bool, id: string,
    r1: Result<Student, ServiceError>, r2: Result<Student, ServiceError>,
    d1: Option<ServiceError>, d2: Option<ServiceError>)
    ensures CreateStudentHandler(decoded, validates, r1).call.None? ==>
      CreateStudentHandler(decoded, validates, r1) == CreateStudentHandler(decoded, validates, r2)
    ensures UpdateStudentHandler(id, update, validates, r1).call.None? ==>
      UpdateStudentHandler(id, update, validates, r1) == UpdateStudentHandler(id, update, validates, r2)
    ensures GetStudentHandler(id, r1).call.None? ==> GetStudentHandler(id, r1) == GetStudentHandler(id, r2)
    ensures DeleteStudentHandler(id, d1).call.None? ==> DeleteStudentHandler(id, d1) == DeleteStudentHandler(id, d2)
  {
  }

  /**
   * Three failure paths write nothing, so net/http answers 200 with an
   * empty body: an undecodable create or update body, and a failing delete
   * or update in the service.
   */
  lemma SilentFailuresAnswer200(
    id: string, validates: bool, req: UpdateStudentRequest, e: ServiceError, r: Result<Student, ServiceError>)
    requires id != ""
    ensures var resp := CreateStudentHandler(None, validates, r);
      WireStatus(resp.writes) == StatusOK && Bodies(resp.writes) == []
    ensures var resp := UpdateStudentHandler(id, None, validates, r);
      WireStatus(resp.writes) == StatusOK && Bodies(resp.writes) == []
    ensures var resp := DeleteStudentHandler(id, Some(e));
      resp.call.Some? && WireStatus(resp.writes) == StatusOK && Bodies(resp.writes) == []
    ensures var resp := UpdateStudentHandler(id, Some(req), true, Err(e));
      resp.call.Some? && WireStatus(resp.writes) == StatusOK && Bodies(resp.writes) == []
  {
  }

  /** A header set after the status is written never reaches the client. */
  lemma {:induction false} HeaderAfterCommitIsLost(ws: seq<Write>, code: int, name: string, value: string)
    ensures SentHeader(ws + [WriteHeader(code), SetHeader(name, value)], name) == SentHeader(ws + [WriteHeader(code)], name)
    ensures WireStatus(ws + [WriteHeader(code), SetHeader(name, value)]) == WireStatus(ws + [WriteHeader(code)])
  {
    if ws != [] {
      HeaderAfterCommitIsLost(ws[1..], code, name, value);
      assert (ws + [WriteHeader(code), SetHeader(name, value)])[1..] == ws[1..] + [WriteHeader(code), SetHeader(name, value)];
      assert (ws + [WriteHeader(code)])[1..] == ws[1..] + [WriteHeader(code)];
    }
  }
}
