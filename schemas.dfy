/**
 * The four record kinds of the platform and how a request body (a raw field map)
 * is validated into one of them: required fields must be present with the right
 * type, `role` and post `type` must be one of their literal values, optional fields
 * default to absent, `verified` to false and `tags` to the empty list. Fields the
 * record does not declare are ignored. A rejected body reports every offending
 * field, in declaration order.
 */
module Schemas {
  import opened Wrappers
  import opened Documents

  datatype Role = Student | Professor | Company

  datatype PostType = Question | InternshipRequest | Discussion

  datatype User = User(
    name: string,
    email: string,
    role: Role,
    college: Option<string>,
    department: Option<string>,
    companyName: Option<string>,
    headline: Option<string>,
    verified: bool)

  datatype Post = Post(
    kind: PostType,
    title: string,
    content: string,
    tags: seq<string>,
    createdBy: string)

  datatype Comment = Comment(
    postId: string,
    content: string,
    createdBy: string,
    parentId: Option<string>)

  datatype Offer = Offer(
    title: string,
    description: string,
    location: Option<string>,
    stipend: Option<string>,
    postId: Option<string>,
    createdBy: string)

  /** Why one field of a body was rejected. */
  datatype FieldError =
    | Missing(field: string)
    | WrongType(field: string)
    | NotAllowed(field: string)      // not one of the literal values
    | BadEmail(field: string)

  /** An email check: the normalised address, or `None` when the text is not an address. */
  type EmailCheck = string -> Option<string>

  // ---------- Literal enumerations ----------

  function RoleName(r: Role): string {
    match r
    case Student => "student"
    case Professor => "professor"
    case Company => "company"
  }

  const RoleNames: set<string> := {"student", "professor", "company"}

  function ParseRole(s: string): (r: Option<Role>)
    ensures r.Some? <==> s in RoleNames
    ensures r.Some? ==> RoleName(r.value) == s
  {
    if s == "student" then Some(Student)
    else if s == "professor" then Some(Professor)
    else if s == "company" then Some(Company)
    else None
  }

  function PostTypeName(t: PostType): string {
    match t
    case Question => "question"
    case InternshipRequest => "internship_request"
    case Discussion => "discussion"
  }

  const PostTypeNames: set<string> := {"question", "internship_request", "discussion"}

  function ParsePostType(s: string): (r: Option<PostType>)
    ensures r.Some? <==> s in PostTypeNames
    ensures r.Some? ==> PostTypeName(r.value) == s
  {
    if s == "question" then Some(Question)
    else if s == "internship_request" then Some(InternshipRequest)
    else if s == "discussion" then Some(Discussion)
    else None
  }

  lemma RoleNameRoundTrip(r: Role)
    ensures ParseRole(RoleName(r)) == Some(r)
  {
  }

  lemma PostTypeNameRoundTrip(t: PostType)
    ensures ParsePostType(PostTypeName(t)) == Some(t)
  {
  }

  // ---------- Field parsers ----------

  /** A required text field. */
  function TextField(raw: Doc, field: string): (r: Result<string, FieldError>)
    ensures r.Ok? <==> field in raw && raw[field].Str?
    ensures r.Ok? ==> raw[field] == Str(r.value)
    ensures field !in raw ==> r == Err(Missing(field))
    ensures field in raw && !raw[field].Str? ==> r == Err(WrongType(field))
    ensures r.Err? ==> r.error.field == field
  {
    if field !in raw then Err(Missing(field))
    else match raw[field]
      case Str(s) => Ok(s)
      case _ => Err(WrongType(field))
  }

  /** An optional text field: absent or null is `None`. */
  function OptionalTextField(raw: Doc, field: string): (r: Result<Option<string>, FieldError>)
    ensures r.Ok? <==> field !in raw || raw[field].Null? || raw[field].Str?
    ensures r == Ok(None) <==> field !in raw || raw[field].Null?
    ensures r.Ok? && r.value.Some? ==> raw[field] == Str(r.value.value)
    ensures r.Err? ==> r.error == WrongType(field)
  {
    if field !in raw then Ok(None)
    else match raw[field]
      case Null => Ok(None)
      case Str(s) => Ok(Some(s))
      case _ => Err(WrongType(field))
  }

  /** A boolean field with a default for when it is absent. */
  function FlagField(raw: Doc, field: string, default: bool): (r: Result<bool, FieldError>)
    ensures r.Ok? <==> field !in raw || raw[field].Bool?
    ensures field !in raw ==> r == Ok(default)
    ensures field in raw && r.Ok? ==> raw[field] == Bool(r.value)
    ensures r.Err? ==> r.error == WrongType(field)
  {
    if field !in raw then Ok(default)
    else match raw[field]
      case Bool(b) => Ok(b)
      case _ => Err(WrongType(field))
  }

  /** The values of a list of strings, in order. */
  function Texts(ss: seq<string>): (vs: seq<Value>)
    ensures |vs| == |ss|
    ensures forall i :: 0 <= i < |ss| ==> vs[i] == Str(ss[i])
  {
    seq(|ss|, i requires 0 <= i < |ss| => Str(ss[i]))
  }

  predicate AllTexts(vs: seq<Value>) {
    forall i :: 0 <= i < |vs| ==> vs[i].Str?
  }

  /** A list-of-strings field, empty when absent; the order of the list is kept. */
  function TextListField(raw: Doc, field: string): (r: Result<seq<string>, FieldError>)
    ensures r.Ok? <==> field !in raw || (raw[field].Arr? && AllTexts(raw[field].items))
    ensures field !in raw ==> r == Ok([])
    ensures field in raw && r.Ok? ==> raw[field] == Arr(Texts(r.value))
    ensures r.Err? ==> r.error == WrongType(field)
  {
    if field !in raw then Ok([])
    else match raw[field]
      case Arr(items) =>
        if AllTexts(items) then
          var ss := seq(|items|, i requires 0 <= i < |items| => items[i].s);
          assert Texts(ss) == items;
          Ok(ss)
        else Err(WrongType(field))
      case _ => Err(WrongType(field))
  }

  /** A required field holding one of a literal set of strings. */
  function RoleField(raw: Doc, field: string): (r: Result<Role, FieldError>)
    ensures r.Ok? <==> field in raw && raw[field].Str? && raw[field].s in RoleNames
    ensures r.Ok? ==> raw[field] == Str(RoleName(r.value))
    ensures field !in raw ==> r == Err(Missing(field))
    ensures field in raw && raw[field].Str? && raw[field].s !in RoleNames ==> r == Err(NotAllowed(field))
    ensures field in raw && r.Err? ==> r.error == NotAllowed(field)
    ensures r.Err? ==> r.error.field == field
  {
    if field !in raw then Err(Missing(field))
    else match raw[field]
      case Str(s) => (match ParseRole(s) case Some(role) => Ok(role) case None => Err(NotAllowed(field)))
      case _ => Err(NotAllowed(field))
  }

  function PostTypeField(raw: Doc, field: string): (r: Result<PostType, FieldError>)
    ensures r.Ok? <==> field in raw && raw[field].Str? && raw[field].s in PostTypeNames
    ensures r.Ok? ==> raw[field] == Str(PostTypeName(r.value))
    ensures field !in raw ==> r == Err(Missing(field))
    ensures field in raw && raw[field].Str? && raw[field].s !in PostTypeNames ==> r == Err(NotAllowed(field))
    ensures field in raw && r.Err? ==> r.error == NotAllowed(field)
    ensures r.Err? ==> r.error.field == field
  {
    if field !in raw then Err(Missing(field))
    else match raw[field]
      case Str(s) => (match ParsePostType(s) case Some(t) => Ok(t) case None => Err(NotAllowed(field)))
      case _ => Err(NotAllowed(field))
  }

  /** A required email field: text the email check accepts, kept in its normalised form. */
  function EmailField(raw: Doc, field: string, check: EmailCheck): (r: Result<string, FieldError>)
    ensures r.Ok? <==> field in raw && raw[field].Str? && check(raw[field].s).Some?
    ensures r.Ok? ==> r.value == check(raw[field].s).value
    ensures field !in raw ==> r == Err(Missing(field))
    ensures field in raw && !raw[field].Str? ==> r == Err(WrongType(field))
    ensures field in raw && raw[field].Str? && check(raw[field].s).None? ==> r == Err(BadEmail(field))
    ensures r.Err? ==> r.error.field == field
  {
    if field !in raw then Err(Missing(field))
    else match raw[field]
      case Str(s) => (match check(s) case Some(normal) => Ok(normal) case None => Err(BadEmail(field)))
      case _ => Err(WrongType(field))
  }

  // ---------- Collecting errors ----------

  /** The error of one field's outcome, if any. */
  function Errors<T>(r: Result<T, FieldError>): (errs: seq<FieldError>)
    ensures |errs| <= 1
    ensures errs == [] <==> r.Ok?
    ensures r.Err? ==> errs == [r.error]
  {
    if r.Err? then [r.error] else []
  }


  // ---------- Records ----------

  const UserFields: set<string> :=
    {"name", "email", "role", "college", "department", "company_name", "headline", "verified"}




  /** Whether field `f` of a `User` body is declared and not acceptable. */
  predicate UserFieldFails(raw: Doc, check: EmailCheck, f: string)
    ensures UserFieldFails(raw, check, f) ==> f in UserFields
  {
    || (f == "name" && TextField(raw, "name").Err?)
    || (f == "email" && EmailField(raw, "email", check).Err?)
    || (f == "role" && RoleField(raw, "role").Err?)
    || (f == "college" && OptionalTextField(raw, "college").Err?)
    || (f == "department" && OptionalTextField(raw, "department").Err?)
    || (f == "company_name" && OptionalTextField(raw, "company_name").Err?)
    || (f == "headline" && OptionalTextField(raw, "headline").Err?)
    || (f == "verified" && FlagField(raw, "verified", false).Err?)
  }

  /**
   * The errors reported for a `User` body: the error of each field that is not
   * acceptable, in declaration order.
   */
  function UserErrors(raw: Doc, check: EmailCheck): (errs: seq<FieldError>)
    ensures errs == [] <==>
      TextField(raw, "name").Ok?
      && EmailField(raw, "email", check).Ok?
      && RoleField(raw, "role").Ok?
      && OptionalTextField(raw, "college").Ok?
      && OptionalTextField(raw, "department").Ok?
      && OptionalTextField(raw, "company_name").Ok?
      && OptionalTextField(raw, "headline").Ok?
      && FlagField(raw, "verified", false).Ok?
    ensures TextField(raw, "name").Err? ==> TextField(raw, "name").error in errs
    ensures EmailField(raw, "email", check).Err? ==> EmailField(raw, "email", check).error in errs
    ensures RoleField(raw, "role").Err? ==> RoleField(raw, "role").error in errs
    ensures OptionalTextField(raw, "college").Err? ==> OptionalTextField(raw, "college").error in errs
    ensures OptionalTextField(raw, "department").Err? ==> OptionalTextField(raw, "department").error in errs
    ensures OptionalTextField(raw, "company_name").Err? ==> OptionalTextField(raw, "company_name").error in errs
    ensures OptionalTextField(raw, "headline").Err? ==> OptionalTextField(raw, "headline").error in errs
    ensures FlagField(raw, "verified", false).Err? ==> FlagField(raw, "verified", false).error in errs
  {
    Errors(TextField(raw, "name"))
    + Errors(EmailField(raw, "email", check))
    + Errors(RoleField(raw, "role"))
    + Errors(OptionalTextField(raw, "college"))
    + Errors(OptionalTextField(raw, "department"))
    + Errors(OptionalTextField(raw, "company_name"))
    + Errors(OptionalTextField(raw, "headline"))
    + Errors(FlagField(raw, "verified", false))
  }

  /** Every error reported for a `User` body names a field of it that is not acceptable. */
  lemma UserErrorsBlameFailing(raw: Doc, check: EmailCheck)
    ensures forall e :: e in UserErrors(raw, check) ==> UserFieldFails(raw, check, e.field)
  {
    forall e | e in UserErrors(raw, check)
      ensures UserFieldFails(raw, check, e.field)
    {
      assert e in Errors(TextField(raw, "name"))
        || e in Errors(EmailField(raw, "email", check))
        || e in Errors(RoleField(raw, "role"))
        || e in Errors(OptionalTextField(raw, "college"))
        || e in Errors(OptionalTextField(raw, "department"))
        || e in Errors(OptionalTextField(raw, "company_name"))
        || e in Errors(OptionalTextField(raw, "headline"))
        || e in Errors(FlagField(raw, "verified", false));
    }
  }

  /** Validation of a `User` body. */
  function ValidateUser(raw: Doc, check: EmailCheck): (r: Result<User, seq<FieldError>>)
    ensures r.Ok? <==>
      && TextField(raw, "name").Ok? && EmailField(raw, "email", check).Ok? && RoleField(raw, "role").Ok?
      && OptionalTextField(raw, "college").Ok? && OptionalTextField(raw, "department").Ok?
      && OptionalTextField(raw, "company_name").Ok? && OptionalTextField(raw, "headline").Ok?
      && FlagField(raw, "verified", false).Ok?
    ensures r.Err? ==> r.error == UserErrors(raw, check)
    ensures r.Err? ==> r.error != []
    ensures r.Ok? ==> raw["name"] == Str(r.value.name) && raw["role"] == Str(RoleName(r.value.role))
    ensures r.Ok? ==> Some(r.value.email) == check(raw["email"].s)
    ensures r.Ok? && "verified" !in raw ==> !r.value.verified
    ensures r.Ok? && "college" !in raw ==> r.value.college == None
    ensures r.Ok? && "department" !in raw ==> r.value.department == None
    ensures r.Ok? && "company_name" !in raw ==> r.value.companyName == None
    ensures r.Ok? && "headline" !in raw ==> r.value.headline == None
    ensures r.Ok? ==> OptionalTextField(raw, "college") == Ok(r.value.college)
    ensures r.Ok? ==> OptionalTextField(raw, "department") == Ok(r.value.department)
    ensures r.Ok? ==> OptionalTextField(raw, "company_name") == Ok(r.value.companyName)
    ensures r.Ok? ==> OptionalTextField(raw, "headline") == Ok(r.value.headline)
    ensures r.Ok? ==> FlagField(raw, "verified", false) == Ok(r.value.verified)
  {
    var name := TextField(raw, "name");
    var email := EmailField(raw, "email", check);
    var role := RoleField(raw, "role");
    var college := OptionalTextField(raw, "college");
    var department := OptionalTextField(raw, "department");
    var companyName := OptionalTextField(raw, "company_name");
    var headline := OptionalTextField(raw, "headline");
    var verified := FlagField(raw, "verified", false);
    if name.Ok? && email.Ok? && role.Ok? && college.Ok? && department.Ok?
       && companyName.Ok? && headline.Ok? && verified.Ok?
    then
      Ok(User(name.value, email.value, role.value, college.value, department.value,
              companyName.value, headline.value, verified.value))
    else
      Err(UserErrors(raw, check))
  }

  const PostFields: set<string> := {"type", "title", "content", "tags", "created_by"}


  /** Whether field `f` of a `Post` body is declared and not acceptable. */
  predicate PostFieldFails(raw: Doc, f: string)
    ensures PostFieldFails(raw, f) ==> f in PostFields
  {
    || (f == "type" && PostTypeField(raw, "type").Err?)
    || (f == "title" && TextField(raw, "title").Err?)
    || (f == "content" && TextField(raw, "content").Err?)
    || (f == "tags" && TextListField(raw, "tags").Err?)
    || (f == "created_by" && TextField(raw, "created_by").Err?)
  }

  /**
   * The errors reported for a `Post` body: the error of each field that is not
   * acceptable, in declaration order.
   */
  function PostErrors(raw: Doc): (errs: seq<FieldError>)
    ensures errs == [] <==>
      PostTypeField(raw, "type").Ok?
      && TextField(raw, "title").Ok?
      && TextField(raw, "content").Ok?
      && TextListField(raw, "tags").Ok?
      && TextField(raw, "created_by").Ok?
    ensures PostTypeField(raw, "type").Err? ==> PostTypeField(raw, "type").error in errs
    ensures TextField(raw, "title").Err? ==> TextField(raw, "title").error in errs
    ensures TextField(raw, "content").Err? ==> TextField(raw, "content").error in errs
    ensures TextListField(raw, "tags").Err? ==> TextListField(raw, "tags").error in errs
    ensures TextField(raw, "created_by").Err? ==> TextField(raw, "created_by").error in errs
  {
    Errors(PostTypeField(raw, "type"))
    + Errors(TextField(raw, "title"))
    + Errors(TextField(raw, "content"))
    + Errors(TextListField(raw, "tags"))
    + Errors(TextField(raw, "created_by"))
  }

  /** Every error reported for a `Post` body names a field of it that is not acceptable. */
  lemma PostErrorsBlameFailing(raw: Doc)
    ensures forall e :: e in PostErrors(raw) ==> PostFieldFails(raw, e.field)
  {
    forall e | e in PostErrors(raw)
      ensures PostFieldFails(raw, e.field)
    {
      assert e in Errors(PostTypeField(raw, "type"))
        || e in Errors(TextField(raw, "title"))
        || e in Errors(TextField(raw, "content"))
        || e in Errors(TextListField(raw, "tags"))
        || e in Errors(TextField(raw, "created_by"));
    }
  }

  /** Validation of a `Post` body. */
  function ValidatePost(raw: Doc): (r: Result<Post, seq<FieldError>>)
    ensures r.Ok? <==>
      && PostTypeField(raw, "type").Ok? && TextField(raw, "title").Ok? && TextField(raw, "content").Ok?
      && TextListField(raw, "tags").Ok? && TextField(raw, "created_by").Ok?
    ensures r.Err? ==> r.error == PostErrors(raw)
    ensures r.Err? ==> r.error != []
    ensures r.Ok? ==> raw["type"] == Str(PostTypeName(r.value.kind))
    ensures r.Ok? ==> raw["title"] == Str(r.value.title) && raw["content"] == Str(r.value.content)
    ensures r.Ok? ==> raw["created_by"] == Str(r.value.createdBy)
    ensures r.Ok? && "tags" !in raw ==> r.value.tags == []
    ensures r.Ok? && "tags" in raw ==> raw["tags"] == Arr(Texts(r.value.tags))
  {
    var kind := PostTypeField(raw, "type");
    var title := TextField(raw, "title");
    var content := TextField(raw, "content");
    var tags := TextListField(raw, "tags");
    var createdBy := TextField(raw, "created_by");
    if kind.Ok? && title.Ok? && content.Ok? && tags.Ok? && createdBy.Ok? then
      Ok(Post(kind.value, title.value, content.value, tags.value, createdBy.value))
    else
      Err(PostErrors(raw))
  }

  const CommentFields: set<string> := {"post_id", "content", "created_by", "parent_id"}


  /** Whether field `f` of a `Comment` body is declared and not acceptable. */
  predicate CommentFieldFails(raw: Doc, f: string)
    ensures CommentFieldFails(raw, f) ==> f in CommentFields
  {
    || (f == "post_id" && TextField(raw, "post_id").Err?)
    || (f == "content" && TextField(raw, "content").Err?)
    || (f == "created_by" && TextField(raw, "created_by").Err?)
    || (f == "parent_id" && OptionalTextField(raw, "parent_id").Err?)
  }

  /**
   * The errors reported for a `Comment` body: the error of each field that is not
   * acceptable, in declaration order.
   */
  function CommentErrors(raw: Doc): (errs: seq<FieldError>)
    ensures errs == [] <==>
      TextField(raw, "post_id").Ok?
      && TextField(raw, "content").Ok?
      && TextField(raw, "created_by").Ok?
      && OptionalTextField(raw, "parent_id").Ok?
    ensures TextField(raw, "post_id").Err? ==> TextField(raw, "post_id").error in errs
    ensures TextField(raw, "content").Err? ==> TextField(raw, "content").error in errs
    ensures TextField(raw, "created_by").Err? ==> TextField(raw, "created_by").error in errs
    ensures OptionalTextField(raw, "parent_id").Err? ==> OptionalTextField(raw, "parent_id").error in errs
  {
    Errors(TextField(raw, "post_id"))
    + Errors(TextField(raw, "content"))
    + Errors(TextField(raw, "created_by"))
    + Errors(OptionalTextField(raw, "parent_id"))
  }

  /** Every error reported for a `Comment` body names a field of it that is not acceptable. */
  lemma CommentErrorsBlameFailing(raw: Doc)
    ensures forall e :: e in CommentErrors(raw) ==> CommentFieldFails(raw, e.field)
  {
    forall e | e in CommentErrors(raw)
      ensures CommentFieldFails(raw, e.field)
    {
      assert e in Errors(TextField(raw, "post_id"))
        || e in Errors(TextField(raw, "content"))
        || e in Errors(TextField(raw, "created_by"))
        || e in Errors(OptionalTextField(raw, "parent_id"));
    }
  }

  /** Validation of a `Comment` body. */
  function ValidateComment(raw: Doc): (r: Result<Comment, seq<FieldError>>)
    ensures r.Ok? <==>
      && TextField(raw, "post_id").Ok? && TextField(raw, "content").Ok? && TextField(raw, "created_by").Ok?
      && OptionalTextField(raw, "parent_id").Ok?
    ensures r.Err? ==> r.error == CommentErrors(raw)
    ensures r.Err? ==> r.error != []
    ensures r.Ok? ==> raw["post_id"] == Str(r.value.postId) && raw["content"] == Str(r.value.content)
    ensures r.Ok? ==> raw["created_by"] == Str(r.value.createdBy)
    ensures r.Ok? && "parent_id" !in raw ==> r.value.parentId == None
    ensures r.Ok? ==> OptionalTextField(raw, "parent_id") == Ok(r.value.parentId)
  {
    var postId := TextField(raw, "post_id");
    var content := TextField(raw, "content");
    var createdBy := TextField(raw, "created_by");
    var parentId := OptionalTextField(raw, "parent_id");
    if postId.Ok? && content.Ok? && createdBy.Ok? && parentId.Ok? then
      Ok(Comment(postId.value, content.value, createdBy.value, parentId.value))
    else
      Err(CommentErrors(raw))
  }

  const OfferFields: set<string> := {"title", "description", "location", "stipend", "post_id", "created_by"}


  /** Whether field `f` of an `Offer` body is declared and not acceptable. */
  predicate OfferFieldFails(raw: Doc, f: string)
    ensures OfferFieldFails(raw, f) ==> f in OfferFields
  {
    || (f == "title" && TextField(raw, "title").Err?)
    || (f == "description" && TextField(raw, "description").Err?)
    || (f == "location" && OptionalTextField(raw, "location").Err?)
    || (f == "stipend" && OptionalTextField(raw, "stipend").Err?)
    || (f == "post_id" && OptionalTextField(raw, "post_id").Err?)
    || (f == "created_by" && TextField(raw, "created_by").Err?)
  }

  /**
   * The errors reported for an `Offer` body: the error of each field that is not
   * acceptable, in declaration order.
   */
  function OfferErrors(raw: Doc): (errs: seq<FieldError>)
    ensures errs == [] <==>
      TextField(raw, "title").Ok?
      && TextField(raw, "description").Ok?
      && OptionalTextField(raw, "location").Ok?
      && OptionalTextField(raw, "stipend").Ok?
      && OptionalTextField(raw, "post_id").Ok?
      && TextField(raw, "created_by").Ok?
    ensures TextField(raw, "title").Err? ==> TextField(raw, "title").error in errs
    ensures TextField(raw, "description").Err? ==> TextField(raw, "description").error in errs
    ensures OptionalTextField(raw, "location").Err? ==> OptionalTextField(raw, "location").error in errs
    ensures OptionalTextField(raw, "stipend").Err? ==> OptionalTextField(raw, "stipend").error in errs
    ensures OptionalTextField(raw, "post_id").Err? ==> OptionalTextField(raw, "post_id").error in errs
    ensures TextField(raw, "created_by").Err? ==> TextField(raw, "created_by").error in errs
  {
    Errors(TextField(raw, "title"))
    + Errors(TextField(raw, "description"))
    + Errors(OptionalTextField(raw, "location"))
    + Errors(OptionalTextField(raw, "stipend"))
    + Errors(OptionalTextField(raw, "post_id"))
    + Errors(TextField(raw, "created_by"))
  }

  /** Every error reported for an `Offer` body names a field of it that is not acceptable. */
  lemma OfferErrorsBlameFailing(raw: Doc)
    ensures forall e :: e in OfferErrors(raw) ==> OfferFieldFails(raw, e.field)
  {
    forall e | e in OfferErrors(raw)
      ensures OfferFieldFails(raw, e.field)
    {
      assert e in Errors(TextField(raw, "title"))
        || e in Errors(TextField(raw, "description"))
        || e in Errors(OptionalTextField(raw, "location"))
        || e in Errors(OptionalTextField(raw, "stipend"))
        || e in Errors(OptionalTextField(raw, "post_id"))
        || e in Errors(TextField(raw, "created_by"));
    }
  }

  /** Validation of an `Offer` body. */
  function ValidateOffer(raw: Doc): (r: Result<Offer, seq<FieldError>>)
    ensures r.Ok? <==>
      && TextField(raw, "title").Ok? && TextField(raw, "description").Ok?
      && OptionalTextField(raw, "location").Ok? && OptionalTextField(raw, "stipend").Ok?
      && OptionalTextField(raw, "post_id").Ok? && TextField(raw, "created_by").Ok?
    ensures r.Err? ==> r.error == OfferErrors(raw)
    ensures r.Err? ==> r.error != []
    ensures r.Ok? ==> raw["title"] == Str(r.value.title) && raw["description"] == Str(r.value.description)
    ensures r.Ok? ==> raw["created_by"] == Str(r.value.createdBy)
    ensures r.Ok? && "location" !in raw ==> r.value.location == None
    ensures r.Ok? && "stipend" !in raw ==> r.value.stipend == None
    ensures r.Ok? && "post_id" !in raw ==> r.value.postId == None
    ensures r.Ok? ==> OptionalTextField(raw, "location") == Ok(r.value.location)
    ensures r.Ok? ==> OptionalTextField(raw, "stipend") == Ok(r.value.stipend)
    ensures r.Ok? ==> OptionalTextField(raw, "post_id") == Ok(r.value.postId)
  {
    var title := TextField(raw, "title");
    var description := TextField(raw, "description");
    var location := OptionalTextField(raw, "location");
    var stipend := OptionalTextField(raw, "stipend");
    var postId := OptionalTextField(raw, "post_id");
    var createdBy := TextField(raw, "created_by");
    if title.Ok? && description.Ok? && location.Ok? && stipend.Ok? && postId.Ok? && createdBy.Ok? then
      Ok(Offer(title.value, description.value, location.value, stipend.value, postId.value, createdBy.value))
    else
      Err(OfferErrors(raw))
  }

  // ---------- What a rejection reports ----------

  /** A body missing a required `User` field is rejected, naming that field. */
  lemma UserMissingRequired(raw: Doc, check: EmailCheck, field: string)
    requires field == "name" || field == "email" || field == "role"
    requires field !in raw
    ensures ValidateUser(raw, check).Err?
    ensures Missing(field) in ValidateUser(raw, check).error
  {
  }

  /** A role outside the three literal values (say "admin") is rejected, naming `role`. */
  lemma UserRoleNotAllowed(raw: Doc, check: EmailCheck)
    requires "role" in raw && raw["role"].Str? && raw["role"].s !in RoleNames
    ensures ValidateUser(raw, check).Err?
    ensures NotAllowed("role") in ValidateUser(raw, check).error
  {
  }

  lemma PostMissingRequired(raw: Doc, field: string)
    requires field == "type" || field == "title" || field == "content" || field == "created_by"
    requires field !in raw
    ensures ValidatePost(raw).Err?
    ensures Missing(field) in ValidatePost(raw).error
  {
  }

  /** A post type outside the three literal values is rejected, naming `type`. */
  lemma PostTypeNotAllowed(raw: Doc)
    requires "type" in raw && raw["type"].Str? && raw["type"].s !in PostTypeNames
    ensures ValidatePost(raw).Err?
    ensures NotAllowed("type") in ValidatePost(raw).error
  {
  }

  lemma CommentMissingRequired(raw: Doc, field: string)
    requires field == "post_id" || field == "content" || field == "created_by"
    requires field !in raw
    ensures ValidateComment(raw).Err?
    ensures Missing(field) in ValidateComment(raw).error
  {
  }

  lemma OfferMissingRequired(raw: Doc, field: string)
    requires field == "title" || field == "description" || field == "created_by"
    requires field !in raw
    ensures ValidateOffer(raw).Err?
    ensures Missing(field) in ValidateOffer(raw).error
  {
  }

  // ---------- Records as documents ----------

  function OptionalText(o: Option<string>): Value {
    match o
    case None => Null
    case Some(s) => Str(s)
  }

  /** The document a `User` is stored as: every declared field, absent optionals as null. */
  function UserDocument(u: User): (d: Doc)
    ensures d.Keys == UserFields
  {
    map["name" := Str(u.name), "email" := Str(u.email), "role" := Str(RoleName(u.role)),
        "college" := OptionalText(u.college), "department" := OptionalText(u.department),
        "company_name" := OptionalText(u.companyName), "headline" := OptionalText(u.headline),
        "verified" := Bool(u.verified)]
  }

  function PostDocument(p: Post): (d: Doc)
    ensures d.Keys == PostFields
  {
    map["type" := Str(PostTypeName(p.kind)), "title" := Str(p.title), "content" := Str(p.content),
        "tags" := Arr(Texts(p.tags)), "created_by" := Str(p.createdBy)]
  }

  function CommentDocument(c: Comment): (d: Doc)
    ensures d.Keys == CommentFields
  {
    map["post_id" := Str(c.postId), "content" := Str(c.content), "created_by" := Str(c.createdBy),
        "parent_id" := OptionalText(c.parentId)]
  }

  function OfferDocument(o: Offer): (d: Doc)
    ensures d.Keys == OfferFields
  {
    map["title" := Str(o.title), "description" := Str(o.description),
        "location" := OptionalText(o.location), "stipend" := OptionalText(o.stipend),
        "post_id" := OptionalText(o.postId), "created_by" := Str(o.createdBy)]
  }

  /** A stored user validates back to itself when its email is already in normal form. */
  lemma UserRoundTrip(u: User, check: EmailCheck)
    requires check(u.email) == Some(u.email)
    ensures ValidateUser(UserDocument(u), check) == Ok(u)
  {
    var d := UserDocument(u);
    RoleNameRoundTrip(u.role);
    assert TextField(d, "name") == Ok(u.name);
    assert EmailField(d, "email", check) == Ok(u.email);
    assert RoleField(d, "role") == Ok(u.role);
    assert OptionalTextField(d, "college") == Ok(u.college);
    assert OptionalTextField(d, "department") == Ok(u.department);
    assert OptionalTextField(d, "company_name") == Ok(u.companyName);
    assert OptionalTextField(d, "headline") == Ok(u.headline);
    assert FlagField(d, "verified", false) == Ok(u.verified);
  }

  lemma PostRoundTrip(p: Post)
    ensures ValidatePost(PostDocument(p)) == Ok(p)
  {
    var d := PostDocument(p);
    PostTypeNameRoundTrip(p.kind);
    TextsInjective(TextListField(d, "tags").value, p.tags);
  }

  lemma CommentRoundTrip(c: Comment)
    ensures ValidateComment(CommentDocument(c)) == Ok(c)
  {
  }

  lemma OfferRoundTrip(o: Offer)
    ensures ValidateOffer(OfferDocument(o)) == Ok(o)
  {
  }

  lemma TextsInjective(a: seq<string>, b: seq<string>)
    requires Texts(a) == Texts(b)
    ensures a == b
  {
  }
}
