/** Request bodies and the bean-validation constraints declared on them.
    Every field Java may leave null is an `Option`. A validator returns the
    violations in declaration order; an empty list means the body is valid. */
module Dtos {
  import opened Outcomes
  import opened JavaText
  import opened Entities

  // ---------------------------------------------------------------- users

  datatype UserUpdateDTO = UserUpdateDTO(
    email: Option<string>,
    password: Option<string>,
    firstName: Option<string>,
    lastName: Option<string>,
    role: Option<Role>)

  datatype UserCreateDTO = UserCreateDTO(
    username: string,
    email: string,
    password: string,
    firstName: Option<string>,
    lastName: Option<string>,
    role: Role)

  const EmailMessage: string := "Email must be valid"
  const PasswordSizeMessage: string := "Password must be between 8 and 128 characters"
  const PasswordPatternMessage: string :=
    "Password must contain at least one uppercase letter, one lowercase letter, and one digit"

  const MinPasswordLength: nat := 8
  const MaxPasswordLength: nat := 128

  /** The characters `.` refuses to match without DOTALL. */
  predicate IsLineTerminator(c: char) {
    c == '\n' || c == '\r' || c == '\U{85}' || c == '\U{2028}' || c == '\U{2029}'
  }

  predicate IsLower(c: char) { 'a' <= c <= 'z' }
  predicate IsUpper(c: char) { 'A' <= c <= 'Z' }
  predicate IsDigit(c: char) { '0' <= c <= '9' }

  /** What `^(?=.*[a-z])(?=.*[A-Z])(?=.*\d).*$` accepts under whole-string
      matching: one character of each class, and no line terminator anywhere
      (`.*` cannot cross one and the match must reach the end). */
  ghost predicate PasswordPatternHolds(p: string) {
    && (forall k :: 0 <= k < |p| ==> !IsLineTerminator(p[k]))
    && (exists k :: 0 <= k < |p| && IsLower(p[k]))
    && (exists k :: 0 <= k < |p| && IsUpper(p[k]))
    && (exists k :: 0 <= k < |p| && IsDigit(p[k]))
  }

  /** What one left-to-right pass over a password has seen. */
  datatype Seen = Seen(lower: bool, upper: bool, digit: bool, terminator: bool)

  function Scan(p: string): (s: Seen)
    ensures s.lower <==> exists k :: 0 <= k < |p| && IsLower(p[k])
    ensures s.upper <==> exists k :: 0 <= k < |p| && IsUpper(p[k])
    ensures s.digit <==> exists k :: 0 <= k < |p| && IsDigit(p[k])
    ensures s.terminator <==> exists k :: 0 <= k < |p| && IsLineTerminator(p[k])
    decreases |p|
  {
    if p == [] then Seen(false, false, false, false)
    else
      var rest := Scan(p[1..]);
      assert forall k :: 1 <= k < |p| ==> p[k] == p[1..][k - 1];
      Seen(rest.lower || IsLower(p[0]), rest.upper || IsUpper(p[0]),
           rest.digit || IsDigit(p[0]), rest.terminator || IsLineTerminator(p[0]))
  }

  /** The pattern check, by one scan. */
  function MatchesPasswordPattern(p: string): (b: bool)
    ensures b <==> PasswordPatternHolds(p)
  {
    var s := Scan(p);
    s.lower && s.upper && s.digit && !s.terminator
  }

  /** `@Size(min = 8, max = 128)`, counted in UTF-16 code units. */
  predicate PasswordSizeOk(p: string) {
    MinPasswordLength <= Utf16Length(p) <= MaxPasswordLength
  }

  /** The constraints on a user update, stated per field; `@Email` is a parameter. */
  ghost predicate UserUpdateValid(dto: UserUpdateDTO, isEmail: string -> bool) {
    && (dto.email.Some? ==> isEmail(dto.email.value))
    && (dto.password.Some? ==> PasswordSizeOk(dto.password.value) && PasswordPatternHolds(dto.password.value))
  }

  /** Bean validation of `UserUpdateDTO`; null fields satisfy every constraint. */
  function ValidateUserUpdate(dto: UserUpdateDTO, isEmail: string -> bool): (r: seq<FieldError>)
    ensures r == [] <==> UserUpdateValid(dto, isEmail)
    ensures forall k :: 0 <= k < |r| ==> r[k].field == "email" || r[k].field == "password"
  {
    (if dto.email.Some? && !isEmail(dto.email.value) then [FieldError("email", EmailMessage)] else [])
    + (if dto.password.Some? && !PasswordSizeOk(dto.password.value) then [FieldError("password", PasswordSizeMessage)] else [])
    + (if dto.password.Some? && !MatchesPasswordPattern(dto.password.value) then [FieldError("password", PasswordPatternMessage)] else [])
  }

  // ---------------------------------------------------------------- tasks

  datatype TaskCreateDTO = TaskCreateDTO(
    title: Option<string>,
    description: Option<string>,
    status: Option<TaskStatus>,
    priority: Option<Priority>,
    dueDate: Option<Date>,
    projectId: Option<int>,
    assigneeId: Option<int>)

  /** Fields an update may carry; null keeps the stored value. */
  datatype TaskUpdateDTO = TaskUpdateDTO(
    title: Option<string>,
    description: Option<string>,
    status: Option<TaskStatus>,
    priority: Option<Priority>,
    dueDate: Option<Date>,
    assigneeId: Option<int>)

  /** A property of a JSON request body: left out, written as `null`, or given. */
  datatype JsonField<T> = Omitted | JsonNull | Given(value: T)

  /** The field's initialiser survives only when the property is left out; an
      explicit `null` reaches the setter and overwrites it. */
  function Bind<T>(field: JsonField<T>, initial: T): (r: Option<T>)
    ensures field.Omitted? ==> r == Some(initial)
    ensures field.JsonNull? <==> r.None?
    ensures field.Given? ==> r == Some(field.value)
  {
    match field
    case Omitted => Some(initial)
    case JsonNull => None
    case Given(v) => Some(v)
  }

  /** Binding a create request. For the fields without an initialiser, left
      out and `null` both give null. An omitted status or priority keeps the
      initialiser, TODO or MEDIUM; an explicit `null` clears it. */
  function BindTaskCreate(title: Option<string>, description: Option<string>, status: JsonField<TaskStatus>,
                          priority: JsonField<Priority>, dueDate: Option<Date>, projectId: Option<int>,
                          assigneeId: Option<int>): (d: TaskCreateDTO)
    ensures status.Omitted? ==> d.status == Some(TODO)
    ensures priority.Omitted? ==> d.priority == Some(MEDIUM)
    ensures d.status.None? <==> status.JsonNull?
    ensures d.priority.None? <==> priority.JsonNull?
    ensures status.Given? ==> d.status == Some(status.value)
    ensures priority.Given? ==> d.priority == Some(priority.value)
    ensures d.title == title && d.description == description && d.dueDate == dueDate
    ensures d.projectId == projectId && d.assigneeId == assigneeId
  {
    TaskCreateDTO(title, description, Bind(status, TODO), Bind(priority, MEDIUM), dueDate, projectId, assigneeId)
  }

  const TitleRequiredMessage: string := "Task title is required"
  const TitleSizeMessage: string := "Title must not exceed 200 characters"
  const TaskDescriptionSizeMessage: string := "Description must not exceed 2000 characters"
  const ProjectIdRequiredMessage: string := "Project ID is required"

  const MaxTitleLength: nat := 200
  const MaxTaskDescriptionLength: nat := 2000

  /** `@NotBlank` as the validator checks it: `trim().length() > 0`. */
  predicate NotBlank(s: Option<string>) {
    s.Some? && Trim(s.value) != []
  }

  /** A non-null string passes `@NotBlank` exactly when one of its characters
      lies above U+0020. */
  lemma NotBlankIff(s: Option<string>)
    ensures NotBlank(s) <==> s.Some? && exists k :: 0 <= k < |s.value| && !IsTrimmable(s.value[k])
  {
  }

  /** `@Size(max = n)`: null passes. */
  predicate SizeAtMost(s: Option<string>, n: nat) {
    s.None? || Utf16Length(s.value) <= n
  }

  /** The constraints on a task create request: a title with a character
      above U+0020 and at most 200 long, a description of at most 2000, a project. */
  ghost predicate TaskCreateValid(dto: TaskCreateDTO) {
    && dto.title.Some?
    && (exists k :: 0 <= k < |dto.title.value| && !IsTrimmable(dto.title.value[k]))
    && Utf16Length(dto.title.value) <= MaxTitleLength
    && SizeAtMost(dto.description, MaxTaskDescriptionLength)
    && dto.projectId.Some?
  }

  function ValidateTaskCreate(dto: TaskCreateDTO): (r: seq<FieldError>)
    ensures r == [] <==> TaskCreateValid(dto)
    ensures dto.title.None? ==> FieldError("title", TitleRequiredMessage) in r
    ensures dto.projectId.None? ==> FieldError("projectId", ProjectIdRequiredMessage) in r
  {
    NotBlankIff(dto.title);
    (if !NotBlank(dto.title) then [FieldError("title", TitleRequiredMessage)] else [])
    + (if !SizeAtMost(dto.title, MaxTitleLength) then [FieldError("title", TitleSizeMessage)] else [])
    + (if !SizeAtMost(dto.description, MaxTaskDescriptionLength) then [FieldError("description", TaskDescriptionSizeMessage)] else [])
    + (if dto.projectId.None? then [FieldError("projectId", ProjectIdRequiredMessage)] else [])
  }

  // ------------------------------------------------------------- projects

  datatype ProjectCreateDTO = ProjectCreateDTO(name: string, description: Option<string>)

  /** The only two fields a project update can touch; neither is required. */
  datatype ProjectUpdateDTO = ProjectUpdateDTO(name: Option<string>, description: Option<string>)

  const ProjectNameSizeMessage: string := "Project name must not exceed 100 characters"
  const ProjectDescriptionSizeMessage: string := "Description must not exceed 1000 characters"

  const MaxProjectNameLength: nat := 100
  const MaxProjectDescriptionLength: nat := 1000

  function ValidateProjectUpdate(dto: ProjectUpdateDTO): (r: seq<FieldError>)
    ensures r == [] <==>
              (dto.name.None? || Utf16Length(dto.name.value) <= MaxProjectNameLength)
              && (dto.description.None? || Utf16Length(dto.description.value) <= MaxProjectDescriptionLength)
    ensures ProjectUpdateDTO(None, None) == dto ==> r == []
  {
    (if !SizeAtMost(dto.name, MaxProjectNameLength) then [FieldError("name", ProjectNameSizeMessage)] else [])
    + (if !SizeAtMost(dto.description, MaxProjectDescriptionLength) then [FieldError("description", ProjectDescriptionSizeMessage)] else [])
  }

  // ------------------------------------------------------------- examples

  /** A password with a line break is refused even though it has every class. */
  lemma LineBreakPasswordRejected()
    ensures !MatchesPasswordPattern("Passw0rd\n")
  {
    var bad := "Passw0rd\n";
    assert IsLineTerminator(bad[8]);
  }

  lemma PasswordWithEveryClassAccepted()
    ensures MatchesPasswordPattern("Passw0rd")
  {
    var good := "Passw0rd";
    assert IsUpper(good[0]) && IsLower(good[1]) && IsDigit(good[5]);
  }

  /** Eight characters pass the size rule, seven do not. */
  lemma PasswordLengthBoundary()
    ensures PasswordSizeOk("Passw0rd") && !PasswordSizeOk("Pass0rd")
  {
    var eight := "Passw0rd";
    var seven := "Pass0rd";
    assert forall k :: 0 <= k < |eight| ==> eight[k] <= '\U{FFFF}';
    assert forall k :: 0 <= k < |seven| ==> seven[k] <= '\U{FFFF}';
  }

  /** Any title made only of characters up to U+0020 is reported as missing;
      when nothing else is wrong, that is the only violation. */
  lemma WhitespaceTitleRejected(dto: TaskCreateDTO)
    requires dto.title.Some? && forall k :: 0 <= k < |dto.title.value| ==> IsTrimmable(dto.title.value[k])
    ensures FieldError("title", TitleRequiredMessage) in ValidateTaskCreate(dto)
    ensures (|dto.title.value| <= MaxTitleLength && SizeAtMost(dto.description, MaxTaskDescriptionLength)
             && dto.projectId.Some?) ==> ValidateTaskCreate(dto) == [FieldError("title", TitleRequiredMessage)]
  {
    assert forall k :: 0 <= k < |dto.title.value| ==> dto.title.value[k] <= '\U{FFFF}';
  }
}
