/** `UsersController`: reading, overwriting, creating and deleting user
    records by id. */
module Users {
  import opened Common
  import opened Entities

  datatype UserCreateDto = UserCreateDto(
    userId: Guid,
    name: string,
    email: string,
    role: Nullable<string>,
    passwordHash: Nullable<string>,
    courseIds: Nullable<seq<Guid>>)

  /** The courses `PostUser` links to a new user: the stored courses whose id
      is listed, none when the list is null or empty. */
  function LinkedCourses(courseIds: Nullable<seq<Guid>>, courses: map<Guid, Course>): (linked: set<Guid>)
    ensures forall id :: id in linked <==> id in courses && courseIds.Some? && id in courseIds.value
    ensures courseIds.Null? || courseIds.value == [] ==> linked == {}
  {
    if courseIds.Null? || |courseIds.value| == 0 then {}
    else set id | id in courses && id in courseIds.value
  }

  /** The record `PostUser` builds: the DTO's fields, no salt. */
  function NewUser(dto: UserCreateDto, courses: map<Guid, Course>): (user: User)
    ensures user.userId == dto.userId && user.name == dto.name && user.email == dto.email
    ensures user.role == dto.role && user.passwordHash == dto.passwordHash
    ensures user.passwordSalt == Null
    ensures user.courseIds == LinkedCourses(dto.courseIds, courses) && user.courseIds <= courses.Keys
  {
    User(dto.userId, dto.name, dto.email, dto.role, dto.passwordHash, Null, LinkedCourses(dto.courseIds, courses))
  }

  class UsersController {
    const db: AppDbContext

    constructor (context: AppDbContext)
      ensures db == context
    {
      db := context;
    }

    /** `UserExists`. */
    predicate UserExists(id: Guid): (present: bool)
      requires db.Valid()
      reads db
      ensures present <==> id in db.users
    {
      exists k | k in db.users :: db.users[k].userId == id
    }

    /** GET api/Users/{id}. */
    function GetUser(id: Guid): (r: ActionResult<User>)
      requires db.Valid()
      reads db
      ensures r.Ok? <==> UserExists(id)
      ensures r.Ok? ==> r.value == db.users[id] && r.value.userId == id
      ensures !r.Ok? ==> r == NotFound(Null)
    {
      if id in db.users then Ok(db.users[id]) else NotFound(Null)
    }

    /** PUT api/Users/{id}: overwrites Name, Email, Role and PasswordHash;
        the courses and the salt stay. */
    method PutUser(id: Guid, dto: UserCreateDto) returns (r: ActionResult<()>)
      requires db.Valid()
      modifies db`users
      ensures db.Valid()
      ensures id != dto.userId ==> r == BadRequest(Null) && db.users == old(db.users)
      ensures id == dto.userId && id !in old(db.users) ==> r == NotFound(Null) && db.users == old(db.users)
      ensures id == dto.userId && id in old(db.users) ==>
        && r == NoContent
        && db.users == old(db.users)[id := old(db.users)[id].(name := dto.name, email := dto.email,
                                                              role := dto.role, passwordHash := dto.passwordHash)]
        && db.users[id].courseIds == old(db.users)[id].courseIds
        && db.users[id].passwordSalt == old(db.users)[id].passwordSalt
    {
      if id != dto.userId {
        return BadRequest(Null);
      }
      if id !in db.users {
        return NotFound(Null);
      }
      var user := db.users[id];
      user := user.(name := dto.name);
      user := user.(email := dto.email);
      user := user.(role := dto.role);
      user := user.(passwordHash := dto.passwordHash);
      db.users := db.users[id := user];
      r := NoContent;
    }

    /** POST api/Users. Saving a second row with an existing id fails, and
        since that id exists the answer is Conflict. */
    method PostUser(dto: UserCreateDto) returns (r: ActionResult<User>)
      requires db.Valid()
      modifies db`users
      ensures db.Valid()
      ensures dto.userId in old(db.users) ==> r == Conflict && db.users == old(db.users)
      ensures dto.userId !in old(db.users) ==>
        && r == CreatedAt(NewUser(dto, db.courses))
        && db.users == old(db.users)[dto.userId := NewUser(dto, db.courses)]
    {
      // builds the record NewUser describes, with the filter of LinkedCourses
      var user := User(dto.userId, dto.name, dto.email, dto.role, dto.passwordHash, Null, {});
      if dto.courseIds.Some? && |dto.courseIds.value| > 0 {
        var courses := set id | id in db.courses && id in dto.courseIds.value;
        user := user.(courseIds := courses);
      }
      if UserExists(user.userId) {
        return Conflict;
      }
      db.users := db.users[user.userId := user];
      r := CreatedAt(user);
    }

    /** DELETE api/Users/{id}. */
    method DeleteUser(id: Guid) returns (r: ActionResult<()>)
      requires db.Valid()
      modifies db`users
      ensures db.Valid()
      ensures id !in old(db.users) ==> r == NotFound(Null) && db.users == old(db.users)
      ensures id in old(db.users) ==> r == NoContent && db.users == old(db.users) - {id}
      ensures GetUser(id) == NotFound(Null)
    {
      if id !in db.users {
        return NotFound(Null);
      }
      db.users := db.users - {id};
      r := NoContent;
    }
  }

  /** A user created and then fetched by id reads back as created. */
  method PostThenGet(db: AppDbContext, dto: UserCreateDto) returns (created: ActionResult<User>, fetched: ActionResult<User>)
    requires db.Valid() && dto.userId !in db.users
    modifies db`users
    ensures created.CreatedAt? && fetched == Ok(created.value)
    ensures fetched.value.userId == dto.userId && fetched.value.passwordSalt == Null
  {
    var controller := new UsersController(db);
    created := controller.PostUser(dto);
    fetched := controller.GetUser(dto.userId);
  }
}
