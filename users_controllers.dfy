/**
 * The user-data rules of the users service: the tomato and activity listings, the lookups by
 * username, id and Firebase UID, user creation, the achievements refresh and the day-by-day
 * statistics.
 *
 * Query results whose SQL is not part of this model (a user's tomatoes, activities, hour
 * totals, tomato count, subjects of a day) are parameters. The two tables the service writes,
 * users and achievements, are fields of the `UsersControllers` class.
 */
module UsersControllers {
  import opened Wrappers
  import opened LocalDates
  import Sequences

  /** A java.util.UUID, held as its canonical text form. */
  datatype Uuid = Uuid(text: string)

  /** A java.sql.Timestamp, held as the local date and time of day that toLocalDateTime() gives. */
  datatype Timestamp = Timestamp(date: Day, nanoOfDay: nat)

  /** The exceptions the service raises. */
  datatype Failure =
    | IllegalArgument(message: string)  // IllegalArgumentException
    | Conflict(reason: string)          // ResponseStatusException with HttpStatus.CONFLICT
    | NullPointer                       // a null createdAt dereferenced while filtering
    | ArithmeticOverflow                // Math.toIntExact on a count outside the int range
    | DateTimeOverflow                  // LocalDate.plusDays beyond LocalDate.MAX

  const UuidNull: string := "UUID cannot be null"
  const UserDtoNull: string := "UserDto cannot be null"
  const UserExists: string := "User already exists"
  const UsernameNullOrEmpty: string := "Username cannot be null or empty"
  const FirebaseUidNullOrEmpty: string := "Firebase UID cannot be null or empty"
  const RangeNotGiven: string := "Both startDate and endDate must be provided"
  const StatisticsDatesNull: string := "Start date and end date cannot be null"
  const EndBeforeStart: string := "End date cannot be before start date"

  const StudiedDescription: string := "Studied for 5 hours"
  const StudiedIcon: string := "https://cdn-icons-png.flaticon.com/512/3068/3068380.png"
  const TomatoDescription: string := "Completed 10 Tomatoes"
  const TomatoIcon: string := "https://cdn-icons-png.flaticon.com/512/590/590685.png"

  const IntMin: int := -0x8000_0000
  const IntMax: int := 0x7FFF_FFFF

  // ------------------------------------------------------------------ entities and DTOs

  datatype UserEntity = UserEntity(uuid: Option<Uuid>, username: Option<string>,
                                   email: Option<string>, firebaseUid: Option<string>)
  datatype UserDto = UserDto(uuid: Option<Uuid>, username: Option<string>)

  datatype TomatoEntity = TomatoEntity(id: Option<int>, userUuid: Option<Uuid>,
                                       startAt: Option<Timestamp>, endAt: Option<Timestamp>,
                                       pauseEnd: Option<Timestamp>, nextTomatoId: Option<int>,
                                       subject: Option<string>, createdAt: Option<Timestamp>)
  datatype TomatoDto = TomatoDto(id: Option<int>, userUuid: Option<Uuid>,
                                 startAt: Option<Timestamp>, endAt: Option<Timestamp>,
                                 pauseEnd: Option<Timestamp>, nextTomatoId: Option<int>,
                                 subject: Option<string>, createdAt: Option<Timestamp>)

  datatype ActivityEntity = ActivityEntity(id: Option<int>, userUuid: Option<Uuid>, tomatoId: Option<int>,
                                           kind: Option<string>, action: Option<string>,
                                           createdAt: Option<Timestamp>)
  datatype ActivityDto = ActivityDto(id: Option<int>, userUuid: Option<Uuid>, tomatoId: Option<int>,
                                     kind: Option<string>, action: Option<string>,
                                     createdAt: Option<Timestamp>)

  datatype AchievementEntity = AchievementEntity(id: Option<int>, userUuid: Option<Uuid>,
                                                 description: Option<string>, completed: Option<bool>,
                                                 createdAt: Option<Timestamp>, icon: Option<string>)
  datatype AchievementDto = AchievementDto(id: Option<int>, userUuid: Option<Uuid>,
                                           description: Option<string>, completed: Option<bool>,
                                           createdAt: Option<Timestamp>, icon: Option<string>)

  /** The achievements table: its rows in insertion order and the next generated id. */
  datatype AchievementTable = AchievementTable(rows: seq<AchievementEntity>, nextId: int)

  datatype StatisticsSubjectDto = StatisticsSubjectDto(subject: string, hours: real)
  datatype StatisticsDateDto = StatisticsDateDto(date: Day, hours: real, subjects: seq<StatisticsSubjectDto>)
  datatype StatisticsDto = StatisticsDto(dates: seq<StatisticsDateDto>)

  /** findSubjectsByUuidAndDate and findTotalHoursByUserAndSubjectAndDate. */
  type SubjectsQuery = (Uuid, Day) -> seq<string>
  type HoursQuery = (Uuid, string, Day) -> Option<real>

  // ------------------------------------------------------------------ conversions

  /** convertEntityToDto: null stays null; uuid and username are copied. */
  function ConvertEntityToDto(entity: Option<UserEntity>): (dto: Option<UserDto>)
    ensures dto.Some? <==> entity.Some?
    ensures dto.Some? ==> dto.value.uuid == entity.value.uuid && dto.value.username == entity.value.username
  {
    match entity
    case None => None
    case Some(e) => Some(UserDto(e.uuid, e.username))
  }

  /** convertDtoToEntity: the two-argument entity constructor; converting back gives the DTO again. */
  function ConvertDtoToEntity(dto: Option<UserDto>): (entity: Option<UserEntity>)
    ensures entity.Some? <==> dto.Some?
    ensures entity.Some? ==> entity.value.email.None? && entity.value.firebaseUid.None?
    ensures ConvertEntityToDto(entity) == dto
  {
    match dto
    case None => None
    case Some(d) => Some(UserEntity(d.uuid, d.username, None, None))
  }

  function TomatoToDto(t: TomatoEntity): TomatoDto {
    TomatoDto(t.id, t.userUuid, t.startAt, t.endAt, t.pauseEnd, t.nextTomatoId, t.subject, t.createdAt)
  }

  /** The DTO carries every field of the entity unchanged. */
  predicate SameTomato(dto: TomatoDto, t: TomatoEntity) {
    && dto.id == t.id && dto.userUuid == t.userUuid && dto.startAt == t.startAt
    && dto.endAt == t.endAt && dto.pauseEnd == t.pauseEnd && dto.nextTomatoId == t.nextTomatoId
    && dto.subject == t.subject && dto.createdAt == t.createdAt
  }

  function ActivityToDto(a: ActivityEntity): ActivityDto {
    ActivityDto(a.id, a.userUuid, a.tomatoId, a.kind, a.action, a.createdAt)
  }

  function AchievementToDto(a: AchievementEntity): AchievementDto {
    AchievementDto(a.id, a.userUuid, a.description, a.completed, a.createdAt, a.icon)
  }

  lemma TomatoToDtoSame(t: TomatoEntity)
    ensures SameTomato(TomatoToDto(t), t)
  {
  }

  // ------------------------------------------------------------------ tomatoes and activities

  /** The local date of a tomato's createdAt (only meaningful when it is not null). */
  function CreatedDay(t: TomatoEntity): int {
    if t.createdAt.Some? then t.createdAt.value.date else 0
  }

  predicate AllCreatedAtKnown(tomatoes: seq<TomatoEntity>) {
    forall i :: 0 <= i < |tomatoes| ==> tomatoes[i].createdAt.Some?
  }

  function CreatedOnOrAfter(date: Day): TomatoEntity -> bool {
    (t: TomatoEntity) => t.createdAt.Some? && CreatedDay(t) >= date
  }

  function CreatedBetween(start: Day, end: Day): TomatoEntity -> bool {
    (t: TomatoEntity) => t.createdAt.Some? && start <= CreatedDay(t) <= end
  }

  function TomatoDtos(tomatoes: seq<TomatoEntity>): (r: seq<TomatoDto>)
    ensures |r| == |tomatoes|
    ensures forall i :: 0 <= i < |r| ==> SameTomato(r[i], tomatoes[i])
  {
    Sequences.Map(tomatoes, TomatoToDto)
  }

  /** getUserTomatoes(uuid): every stored tomato as a DTO, in the same order. */
  function GetUserTomatoes(uuid: Option<Uuid>, stored: seq<TomatoEntity>): (r: Result<seq<TomatoDto>, Failure>)
    ensures uuid.None? <==> r.Failure?
    ensures r.Failure? ==> r.error == IllegalArgument(UuidNull)
    ensures r.Success? ==> |r.value| == |stored| && forall i :: 0 <= i < |stored| ==> SameTomato(r.value[i], stored[i])
  {
    if uuid.None? then Failure(IllegalArgument(UuidNull)) else Success(TomatoDtos(stored))
  }

  /**
   * getUserTomatoes(uuid, date): the tomatoes created on or after `date`, in order; a null date
   * keeps all of them, and with a date a tomato whose createdAt is null raises a NullPointerException.
   */
  function GetUserTomatoesSince(uuid: Option<Uuid>, date: Option<Day>, stored: seq<TomatoEntity>): (r: Result<seq<TomatoDto>, Failure>)
    ensures r.Success? <==> uuid.Some? && (date.None? || AllCreatedAtKnown(stored))
    ensures uuid.None? ==> r == Failure(IllegalArgument(UuidNull))
    ensures uuid.Some? && date.Some? && !AllCreatedAtKnown(stored) ==> r == Failure(NullPointer)
    ensures date.None? ==> r == GetUserTomatoes(uuid, stored)
    ensures r.Success? && date.Some? ==>
      && |r.value| <= |stored|
      && (forall i :: 0 <= i < |r.value| ==> r.value[i].createdAt.Some? && r.value[i].createdAt.value.date >= date.value)
      && (forall t :: t in stored && CreatedDay(t) >= date.value ==> TomatoToDto(t) in r.value)
  {
    if uuid.None? then Failure(IllegalArgument(UuidNull))
    else if date.None? then Success(TomatoDtos(stored))
    else if !AllCreatedAtKnown(stored) then Failure(NullPointer)
    else
      var kept := Sequences.Filter(stored, CreatedOnOrAfter(date.value));
      assert forall t :: t in stored && CreatedDay(t) >= date.value ==> TomatoToDto(t) in TomatoDtos(kept) by {
        forall t | t in stored && CreatedDay(t) >= date.value ensures TomatoToDto(t) in TomatoDtos(kept) {
          var i :| 0 <= i < |stored| && stored[i] == t;
          assert t in kept;
          var j :| 0 <= j < |kept| && kept[j] == t;
          assert TomatoDtos(kept)[j] == TomatoToDto(t);
        }
      }
      Success(TomatoDtos(kept))
  }

  /**
   * getUserTomatoes(uuid, startDate, endDate): the tomatoes created in the inclusive range, in
   * order; a null bound is an error, and an empty range gives an empty list.
   */
  function GetUserTomatoesBetween(uuid: Option<Uuid>, startDate: Option<Day>, endDate: Option<Day>,
                                  stored: seq<TomatoEntity>): (r: Result<seq<TomatoDto>, Failure>)
    ensures r.Success? <==> uuid.Some? && startDate.Some? && endDate.Some? && AllCreatedAtKnown(stored)
    ensures uuid.None? ==> r == Failure(IllegalArgument(UuidNull))
    ensures uuid.Some? && (startDate.None? || endDate.None?) ==> r == Failure(IllegalArgument(RangeNotGiven))
    ensures r.Success? ==>
      && |r.value| <= |stored|
      && (forall i :: 0 <= i < |r.value| ==>
            r.value[i].createdAt.Some? && startDate.value <= r.value[i].createdAt.value.date <= endDate.value)
      && (forall t :: t in stored && startDate.value <= CreatedDay(t) <= endDate.value ==> TomatoToDto(t) in r.value)
    ensures r.Success? && endDate.value < startDate.value ==> r.value == []
  {
    if uuid.None? then Failure(IllegalArgument(UuidNull))
    else if startDate.None? || endDate.None? then Failure(IllegalArgument(RangeNotGiven))
    else if !AllCreatedAtKnown(stored) then Failure(NullPointer)
    else
      var kept := Sequences.Filter(stored, CreatedBetween(startDate.value, endDate.value));
      assert forall t :: t in stored && startDate.value <= CreatedDay(t) <= endDate.value ==> TomatoToDto(t) in TomatoDtos(kept) by {
        forall t | t in stored && startDate.value <= CreatedDay(t) <= endDate.value
          ensures TomatoToDto(t) in TomatoDtos(kept)
        {
          var i :| 0 <= i < |stored| && stored[i] == t;
          assert t in kept;
          var j :| 0 <= j < |kept| && kept[j] == t;
          assert TomatoDtos(kept)[j] == TomatoToDto(t);
        }
      }
      if endDate.value < startDate.value then
        Sequences.FilterRejectsAll(stored, CreatedBetween(startDate.value, endDate.value));
        Success(TomatoDtos(kept))
      else
        Success(TomatoDtos(kept))
  }

  lemma {:induction false} TomatoDtosConcat(a: seq<TomatoEntity>, b: seq<TomatoEntity>)
    ensures TomatoDtos(a + b) == TomatoDtos(a) + TomatoDtos(b)
  {
    assert |TomatoDtos(a + b)| == |TomatoDtos(a) + TomatoDtos(b)|;
    forall i | 0 <= i < |a + b| ensures TomatoDtos(a + b)[i] == (TomatoDtos(a) + TomatoDtos(b))[i] {
      if i < |a| {
        assert (a + b)[i] == a[i];
      } else {
        assert (a + b)[i] == b[i - |a|];
      }
    }
  }

  /**
   * The date filter preserves order: listing the tomatoes of `a + b` gives those of `a` followed
   * by those of `b`.
   */
  lemma TomatoesSinceKeepOrder(uuid: Uuid, date: Day, a: seq<TomatoEntity>, b: seq<TomatoEntity>)
    requires AllCreatedAtKnown(a) && AllCreatedAtKnown(b)
    ensures AllCreatedAtKnown(a + b)
    ensures GetUserTomatoesSince(Some(uuid), Some(date), a + b).value ==
            GetUserTomatoesSince(Some(uuid), Some(date), a).value + GetUserTomatoesSince(Some(uuid), Some(date), b).value
  {
    Sequences.FilterConcat(a, b, CreatedOnOrAfter(date));
    TomatoDtosConcat(Sequences.Filter(a, CreatedOnOrAfter(date)), Sequences.Filter(b, CreatedOnOrAfter(date)));
  }

  /** The range filter preserves order in the same way. */
  lemma TomatoesBetweenKeepOrder(uuid: Uuid, start: Day, end: Day, a: seq<TomatoEntity>, b: seq<TomatoEntity>)
    requires AllCreatedAtKnown(a) && AllCreatedAtKnown(b)
    ensures AllCreatedAtKnown(a + b)
    ensures GetUserTomatoesBetween(Some(uuid), Some(start), Some(end), a + b).value ==
            GetUserTomatoesBetween(Some(uuid), Some(start), Some(end), a).value
            + GetUserTomatoesBetween(Some(uuid), Some(start), Some(end), b).value
  {
    Sequences.FilterConcat(a, b, CreatedBetween(start, end));
    TomatoDtosConcat(Sequences.Filter(a, CreatedBetween(start, end)), Sequences.Filter(b, CreatedBetween(start, end)));
  }

  /** A single tomato is kept by the date filter exactly when it was created on or after the date. */
  lemma TomatoSinceDecision(uuid: Uuid, date: Day, t: TomatoEntity)
    ensures GetUserTomatoesSince(Some(uuid), Some(date), [t]) ==
      if t.createdAt.None? then Failure(NullPointer)
      else if CreatedDay(t) >= date then Success([TomatoToDto(t)])
      else Success([])
  {
    if t.createdAt.Some? {
      assert AllCreatedAtKnown([t]);
      var kept := Sequences.Filter([t], CreatedOnOrAfter(date));
      assert [t][1..] == [];
      assert kept == if CreatedOnOrAfter(date)(t) then [t] else [];
      assert TomatoDtos(kept) == if CreatedOnOrAfter(date)(t) then [TomatoToDto(t)] else [];
    }
  }

  /** A single tomato is kept by the range filter exactly when it was created within the range. */
  lemma TomatoBetweenDecision(uuid: Uuid, start: Day, end: Day, t: TomatoEntity)
    ensures GetUserTomatoesBetween(Some(uuid), Some(start), Some(end), [t]) ==
      if t.createdAt.None? then Failure(NullPointer)
      else if start <= CreatedDay(t) <= end then Success([TomatoToDto(t)])
      else Success([])
  {
    if t.createdAt.Some? {
      assert AllCreatedAtKnown([t]);
      var kept := Sequences.Filter([t], CreatedBetween(start, end));
      assert [t][1..] == [];
      assert kept == if CreatedBetween(start, end)(t) then [t] else [];
      assert TomatoDtos(kept) == if CreatedBetween(start, end)(t) then [TomatoToDto(t)] else [];
    }
  }

  /** getUserActivities: every stored activity as a DTO, in the same order. */
  function GetUserActivities(uuid: Option<Uuid>, stored: seq<ActivityEntity>): (r: Result<seq<ActivityDto>, Failure>)
    ensures uuid.None? <==> r == Failure(IllegalArgument(UuidNull))
    ensures r.Success? ==> |r.value| == |stored| && forall i :: 0 <= i < |stored| ==>
      && r.value[i].id == stored[i].id && r.value[i].userUuid == stored[i].userUuid
      && r.value[i].tomatoId == stored[i].tomatoId && r.value[i].kind == stored[i].kind
      && r.value[i].action == stored[i].action && r.value[i].createdAt == stored[i].createdAt
  {
    if uuid.None? then Failure(IllegalArgument(UuidNull)) else Success(Sequences.Map(stored, ActivityToDto))
  }

  // ------------------------------------------------------------------ statistics

  function HoursOrZero(hours: Option<real>): real {
    hours.GetOr(0.0)
  }

  /** The sum of the subjects' hours (exact; the source sums doubles). */
  function TotalHours(subjects: seq<StatisticsSubjectDto>): real {
    if subjects == [] then 0.0 else subjects[0].hours + TotalHours(subjects[1..])
  }

  /** One entry per subject the repository lists for the day, in its order; a null total is 0. */
  function SubjectStatistics(uuid: Uuid, date: Day, subjectsOn: SubjectsQuery, hoursOf: HoursQuery): (r: seq<StatisticsSubjectDto>)
    ensures |r| == |subjectsOn(uuid, date)|
    ensures forall j :: 0 <= j < |r| ==>
      r[j].subject == subjectsOn(uuid, date)[j] && r[j].hours == HoursOrZero(hoursOf(uuid, subjectsOn(uuid, date)[j], date))
  {
    Sequences.Map(subjectsOn(uuid, date), (s: string) => StatisticsSubjectDto(s, HoursOrZero(hoursOf(uuid, s, date))))
  }

  function DayStatistics(uuid: Uuid, date: Day, subjectsOn: SubjectsQuery, hoursOf: HoursQuery): StatisticsDateDto {
    var subjects := SubjectStatistics(uuid, date, subjectsOn, hoursOf);
    StatisticsDateDto(date, TotalHours(subjects), subjects)
  }

  /** One entry per day from `start` to `end`, in order, each the statistics of its day. */
  ghost predicate IsStatistics(s: StatisticsDto, uuid: Uuid, start: Day, end: Day, subjectsOn: SubjectsQuery, hoursOf: HoursQuery) {
    && start <= end
    && |s.dates| == end - start + 1
    && s.dates[0].date == start
    && s.dates[|s.dates| - 1].date == end
    && (forall k :: 0 <= k < |s.dates| ==> s.dates[k].date == start + k)
    && (forall k :: 0 <= k < |s.dates| ==> s.dates[k] == DayStatistics(uuid, s.dates[k].date, subjectsOn, hoursOf))
  }

  /** The nested loops of getUserStatistics: the entry of each enumerated day, in order. */
  method CollectStatistics(uuid: Uuid, rangeDates: seq<Day>, subjectsOn: SubjectsQuery, hoursOf: HoursQuery)
    returns (statisticsDates: seq<StatisticsDateDto>)
    ensures |statisticsDates| == |rangeDates|
    ensures forall k :: 0 <= k < |rangeDates| ==>
      statisticsDates[k] == DayStatistics(uuid, rangeDates[k], subjectsOn, hoursOf)
  {
    statisticsDates := [];
    for k := 0 to |rangeDates|
      invariant |statisticsDates| == k
      invariant forall m :: 0 <= m < k ==> statisticsDates[m] == DayStatistics(uuid, rangeDates[m], subjectsOn, hoursOf)
    {
      var date := rangeDates[k];
      var subjects := subjectsOn(uuid, date);
      var statisticsSubjects: seq<StatisticsSubjectDto> := [];
      for j := 0 to |subjects|
        invariant |statisticsSubjects| == j
        invariant forall m :: 0 <= m < j ==>
          statisticsSubjects[m] == StatisticsSubjectDto(subjects[m], HoursOrZero(hoursOf(uuid, subjects[m], date)))
      {
        var totalHours := hoursOf(uuid, subjects[j], date);
        statisticsSubjects := statisticsSubjects + [StatisticsSubjectDto(subjects[j], if totalHours.Some? then totalHours.value else 0.0)];
      }
      assert statisticsSubjects == SubjectStatistics(uuid, date, subjectsOn, hoursOf);
      statisticsDates := statisticsDates + [StatisticsDateDto(date, TotalHours(statisticsSubjects), statisticsSubjects)];
    }
  }

  /**
   * The while loop of getUserStatistics as written: it appends `current` and then advances it
   * with plusDays(1), which throws once `current` is LocalDate.MAX.
   */
  method EnumerateDates(start: Day, end: Day) returns (r: Result<seq<Day>, Failure>)
    ensures r.Success? <==> end < start || end < MaxEpochDay
    ensures r.Failure? ==> r.error == DateTimeOverflow
    ensures r.Success? ==> |r.value| == (if end < start then 0 else end - start + 1)
    ensures r.Success? ==> forall k :: 0 <= k < |r.value| ==> r.value[k] == start + k
  {
    var rangeDates: seq<Day> := [];
    var current: Day := start;
    while current <= end
      invariant start <= current && (current <= end + 1 || current == start)
      invariant |rangeDates| == current - start
      invariant forall k :: 0 <= k < |rangeDates| ==> rangeDates[k] == start + k
      decreases end - current
    {
      rangeDates := rangeDates + [current];
      var next := PlusDays(current, 1);
      if next.None? {
        return Failure(DateTimeOverflow);
      }
      current := next.value;
    }
    return Success(rangeDates);
  }

  /** The enumeration as intended: every day from `start` to `end`, with no step past `end`. */
  method EnumerateDatesCorrected(start: Day, end: Day) returns (rangeDates: seq<Day>)
    ensures |rangeDates| == (if end < start then 0 else end - start + 1)
    ensures forall k :: 0 <= k < |rangeDates| ==> rangeDates[k] == start + k
  {
    rangeDates := [];
    var current: int := start;
    while current <= end
      invariant start <= current && (current <= end + 1 || current == start)
      invariant |rangeDates| == current - start
      invariant forall k :: 0 <= k < |rangeDates| ==> rangeDates[k] == start + k
      decreases end - current
    {
      rangeDates := rangeDates + [current as Day];
      current := current + 1;
    }
  }

  /**
   * getUserStatistics as written: argument checks, then one entry per day of the inclusive
   * range. With endDate = LocalDate.MAX it throws instead of returning the statistics.
   */
  method GetUserStatistics(uuid: Option<Uuid>, startDate: Option<Day>, endDate: Option<Day>,
                           subjectsOn: SubjectsQuery, hoursOf: HoursQuery)
    returns (r: Result<StatisticsDto, Failure>)
    ensures uuid.None? ==> r == Failure(IllegalArgument(UuidNull))
    ensures uuid.Some? && (startDate.None? || endDate.None?) ==> r == Failure(IllegalArgument(StatisticsDatesNull))
    ensures uuid.Some? && startDate.Some? && endDate.Some? && endDate.value < startDate.value ==>
      r == Failure(IllegalArgument(EndBeforeStart))
    ensures uuid.Some? && startDate.Some? && endDate.Some? && startDate.value <= endDate.value ==>
      (r.Success? <==> endDate.value < MaxEpochDay)
    ensures uuid.Some? && startDate.Some? && endDate == Some(MaxEpochDay as Day) ==> r == Failure(DateTimeOverflow)
    ensures r.Success? ==> IsStatistics(r.value, uuid.value, startDate.value, endDate.value, subjectsOn, hoursOf)
  {
    if uuid.None? {
      return Failure(IllegalArgument(UuidNull));
    }
    if startDate.None? || endDate.None? {
      return Failure(IllegalArgument(StatisticsDatesNull));
    }
    var start, end := startDate.value, endDate.value;
    if end < start {
      return Failure(IllegalArgument(EndBeforeStart));
    }
    var rangeDates := EnumerateDates(start, end);
    if rangeDates.Failure? {
      return Failure(rangeDates.error);
    }
    var statisticsDates := CollectStatistics(uuid.value, rangeDates.value, subjectsOn, hoursOf);
    return Success(StatisticsDto(statisticsDates));
  }

  /** getUserStatistics as intended: the same checks, and the statistics for every valid range. */
  method GetUserStatisticsCorrected(uuid: Option<Uuid>, startDate: Option<Day>, endDate: Option<Day>,
                                    subjectsOn: SubjectsQuery, hoursOf: HoursQuery)
    returns (r: Result<StatisticsDto, Failure>)
    ensures uuid.None? ==> r == Failure(IllegalArgument(UuidNull))
    ensures uuid.Some? && (startDate.None? || endDate.None?) ==> r == Failure(IllegalArgument(StatisticsDatesNull))
    ensures uuid.Some? && startDate.Some? && endDate.Some? && endDate.value < startDate.value ==>
      r == Failure(IllegalArgument(EndBeforeStart))
    ensures r.Success? <==> uuid.Some? && startDate.Some? && endDate.Some? && startDate.value <= endDate.value
    ensures r.Success? ==> IsStatistics(r.value, uuid.value, startDate.value, endDate.value, subjectsOn, hoursOf)
  {
    if uuid.None? {
      return Failure(IllegalArgument(UuidNull));
    }
    if startDate.None? || endDate.None? {
      return Failure(IllegalArgument(StatisticsDatesNull));
    }
    var start, end := startDate.value, endDate.value;
    if end < start {
      return Failure(IllegalArgument(EndBeforeStart));
    }
    var rangeDates := EnumerateDatesCorrected(start, end);
    var statisticsDates := CollectStatistics(uuid.value, rangeDates, subjectsOn, hoursOf);
    return Success(StatisticsDto(statisticsDates));
  }

  /**
   * The range that ends on LocalDate.MAX: the code as written throws after appending the last
   * day, while the intended statistics have the single entry for that day.
   */
  method StatisticsAtMaxDate(uuid: Uuid, subjectsOn: SubjectsQuery, hoursOf: HoursQuery)
    returns (asWritten: Result<StatisticsDto, Failure>, intended: Result<StatisticsDto, Failure>)
    ensures asWritten == Failure(DateTimeOverflow)
    ensures intended.Success? && |intended.value.dates| == 1
    ensures intended.value.dates[0] == DayStatistics(uuid, MaxEpochDay, subjectsOn, hoursOf)
  {
    var last: Day := MaxEpochDay;
    asWritten := GetUserStatistics(Some(uuid), Some(last), Some(last), subjectsOn, hoursOf);
    intended := GetUserStatisticsCorrected(Some(uuid), Some(last), Some(last), subjectsOn, hoursOf);
  }

  // ------------------------------------------------------------------ achievements

  function OwnedBy(uuid: Uuid): AchievementEntity -> bool {
    (a: AchievementEntity) => a.userUuid == Some(uuid)
  }

  function Describes(description: string): AchievementEntity -> bool {
    (a: AchievementEntity) => a.description == Some(description)
  }

  function OwnedAndDescribes(uuid: Uuid, description: string): AchievementEntity -> bool {
    (a: AchievementEntity) => a.userUuid == Some(uuid) && a.description == Some(description)
  }

  function HasId(id: Option<int>): AchievementEntity -> bool {
    (a: AchievementEntity) => a.id == id
  }

  /** findAchievementsByUuid: the user's rows, in table order. */
  function AchievementsOf(rows: seq<AchievementEntity>, uuid: Uuid): (r: seq<AchievementEntity>)
    ensures forall a :: a in r <==> a in rows && a.userUuid == Some(uuid)
  {
    Sequences.Filter(rows, OwnedBy(uuid))
  }

  /** Every stored row has a generated id, ids are distinct, and the next id is unused. */
  ghost predicate ValidTable(table: AchievementTable) {
    && (forall i :: 0 <= i < |table.rows| ==> table.rows[i].id.Some? && table.rows[i].id.value < table.nextId)
    && (forall i, j :: 0 <= i < j < |table.rows| ==> table.rows[i].id != table.rows[j].id)
  }

  /** achievementsRepository.save: overwrite the row with the entity's id, or insert with a new id. */
  function SaveAchievement(table: AchievementTable, entity: AchievementEntity): AchievementTable {
    match if entity.id.Some? then Sequences.FindFirst(table.rows, HasId(entity.id)) else None
    case Some(k) => AchievementTable(table.rows[k := entity], table.nextId)
    case None => AchievementTable(table.rows + [entity.(id := Some(table.nextId))], table.nextId + 1)
  }

  /** Saving an entity that carries the id of a stored row overwrites that row. */
  lemma SaveExisting(table: AchievementTable, k: nat, entity: AchievementEntity)
    requires ValidTable(table) && k < |table.rows| && entity.id == table.rows[k].id
    ensures SaveAchievement(table, entity) == AchievementTable(table.rows[k := entity], table.nextId)
    ensures ValidTable(SaveAchievement(table, entity))
  {
    assert forall j :: 0 <= j < k ==> !HasId(entity.id)(table.rows[j]);
    Sequences.FindFirstIs(table.rows, HasId(entity.id), k);
  }

  /** Saving an entity without an id appends it under the next id. */
  lemma SaveFresh(table: AchievementTable, entity: AchievementEntity)
    requires ValidTable(table) && entity.id.None?
    ensures SaveAchievement(table, entity) == AchievementTable(table.rows + [entity.(id := Some(table.nextId))], table.nextId + 1)
    ensures ValidTable(SaveAchievement(table, entity))
  {
  }

  /** The entity getUserAchievements saves for one description: the user's first such row, or a new one. */
  function UpsertedEntity(rows: seq<AchievementEntity>, uuid: Uuid, description: string, completed: bool, icon: string): AchievementEntity {
    var mine := AchievementsOf(rows, uuid);
    match Sequences.FindFirst(mine, Describes(description))
    case Some(k) => mine[k].(completed := Some(completed), icon := Some(icon))
    case None => AchievementEntity(None, Some(uuid), Some(description), Some(completed), None, Some(icon))
  }

  /** The user's first row with the description, found through the user's rows, is the first matching row of the table. */
  lemma UpsertedEntityIsFirst(rows: seq<AchievementEntity>, uuid: Uuid, description: string, completed: bool, icon: string)
    ensures var first := Sequences.FindFirst(rows, OwnedAndDescribes(uuid, description));
      UpsertedEntity(rows, uuid, description, completed, icon) ==
        if first.Some? then rows[first.value].(completed := Some(completed), icon := Some(icon))
        else AchievementEntity(None, Some(uuid), Some(description), Some(completed), None, Some(icon))
  {
    Sequences.FindFirstAfterFilter(rows, OwnedBy(uuid), Describes(description), OwnedAndDescribes(uuid, description));
  }

  /**
   * One step of getUserAchievements: take the user's first achievement with this description
   * (or a new one), set its completed flag and icon, and save it.
   */
  function UpsertAchievement(table: AchievementTable, uuid: Uuid, description: string, completed: bool, icon: string): AchievementTable {
    SaveAchievement(table, UpsertedEntity(table.rows, uuid, description, completed, icon))
  }

  /**
   * An upsert rewrites the user's first row with this description in place, or, when there is
   * none, appends exactly one new row with a fresh id; the table stays well formed.
   */
  lemma UpsertInPlace(table: AchievementTable, uuid: Uuid, description: string, completed: bool, icon: string)
    requires ValidTable(table)
    ensures ValidTable(UpsertAchievement(table, uuid, description, completed, icon))
    ensures var first := Sequences.FindFirst(table.rows, OwnedAndDescribes(uuid, description));
      var r := UpsertAchievement(table, uuid, description, completed, icon);
      if first.Some? then
        r == AchievementTable(table.rows[first.value := table.rows[first.value].(completed := Some(completed), icon := Some(icon))], table.nextId)
      else
        r == AchievementTable(table.rows + [AchievementEntity(Some(table.nextId), Some(uuid), Some(description), Some(completed), None, Some(icon))], table.nextId + 1)
  {
    var first := Sequences.FindFirst(table.rows, OwnedAndDescribes(uuid, description));
    var entity := UpsertedEntity(table.rows, uuid, description, completed, icon);
    UpsertedEntityIsFirst(table.rows, uuid, description, completed, icon);
    if first.Some? {
      SaveExisting(table, first.value, entity);
    } else {
      SaveFresh(table, entity);
    }
  }

  /** After an upsert, the source's lookup finds the row for this description with the new flag and icon. */
  lemma UpsertMarks(table: AchievementTable, uuid: Uuid, description: string, completed: bool, icon: string)
    requires ValidTable(table)
    ensures var rows := UpsertAchievement(table, uuid, description, completed, icon).rows;
      var found := Sequences.FindFirst(rows, OwnedAndDescribes(uuid, description));
      found.Some? && rows[found.value].completed == Some(completed) && rows[found.value].icon == Some(icon)
  {
    UpsertInPlace(table, uuid, description, completed, icon);
    var rows := UpsertAchievement(table, uuid, description, completed, icon).rows;
    var first := Sequences.FindFirst(table.rows, OwnedAndDescribes(uuid, description));
    var k := if first.Some? then first.value else |table.rows|;
    assert forall j :: 0 <= j < k ==> rows[j] == table.rows[j];
    Sequences.FindFirstIs(rows, OwnedAndDescribes(uuid, description), k);
  }

  /** An upsert for another description leaves the lookup for this one as it was. */
  lemma UpsertKeepsOthers(table: AchievementTable, uuid: Uuid, description: string, other: string, completed: bool, icon: string)
    requires ValidTable(table) && other != description
    ensures var rows := UpsertAchievement(table, uuid, other, completed, icon).rows;
      var before := Sequences.FindFirst(table.rows, OwnedAndDescribes(uuid, description));
      before.Some? ==> Sequences.FindFirst(rows, OwnedAndDescribes(uuid, description)) == before && rows[before.value] == table.rows[before.value]
  {
    UpsertInPlace(table, uuid, other, completed, icon);
    var rows := UpsertAchievement(table, uuid, other, completed, icon).rows;
    var before := Sequences.FindFirst(table.rows, OwnedAndDescribes(uuid, description));
    if before.Some? {
      var k := before.value;
      var changed := Sequences.FindFirst(table.rows, OwnedAndDescribes(uuid, other));
      if changed.Some? {
        var c := changed.value;
        assert rows == table.rows[c := table.rows[c].(completed := Some(completed), icon := Some(icon))];
        assert c != k by {
          assert table.rows[c].description == Some(other);
          assert table.rows[k].description == Some(description);
        }
        forall j | 0 <= j < k ensures !OwnedAndDescribes(uuid, description)(rows[j]) {
          if j == c {
            assert rows[j].description == Some(other);
          } else {
            assert rows[j] == table.rows[j];
          }
        }
      } else {
        assert rows == table.rows + [AchievementEntity(Some(table.nextId), Some(uuid), Some(other), Some(completed), None, Some(icon))];
        assert forall j :: 0 <= j <= k ==> rows[j] == table.rows[j];
      }
      Sequences.FindFirstIs(rows, OwnedAndDescribes(uuid, description), k);
    }
  }

  /** The studied-hours threshold: at least five hours, a null total counting as zero. */
  predicate StudiedCompleted(totalHours: Option<real>) {
    HoursOrZero(totalHours) >= 5.0
  }

  /** The tomato threshold: at least ten tomatoes. */
  predicate TomatoesCompleted(tomatoCount: int) {
    tomatoCount >= 10
  }

  /** The two saves of getUserAchievements, studied hours first. */
  function RefreshAchievements(table: AchievementTable, uuid: Uuid, totalHours: Option<real>, tomatoCount: int): AchievementTable {
    var studied := UpsertAchievement(table, uuid, StudiedDescription, StudiedCompleted(totalHours), StudiedIcon);
    UpsertAchievement(studied, uuid, TomatoDescription, TomatoesCompleted(tomatoCount), TomatoIcon)
  }

  /**
   * After a refresh the user's "Studied for 5 hours" achievement is completed iff the total is
   * at least five hours, and "Completed 10 Tomatoes" iff the count is at least ten.
   */
  lemma RefreshedThresholds(table: AchievementTable, uuid: Uuid, totalHours: Option<real>, tomatoCount: int)
    requires ValidTable(table)
    ensures ValidTable(RefreshAchievements(table, uuid, totalHours, tomatoCount))
    ensures var rows := RefreshAchievements(table, uuid, totalHours, tomatoCount).rows;
      var studied := Sequences.FindFirst(rows, OwnedAndDescribes(uuid, StudiedDescription));
      var tomato := Sequences.FindFirst(rows, OwnedAndDescribes(uuid, TomatoDescription));
      && studied.Some? && tomato.Some?
      && rows[studied.value].completed == Some(HoursOrZero(totalHours) >= 5.0)
      && rows[tomato.value].completed == Some(tomatoCount >= 10)
  {
    var studied := UpsertAchievement(table, uuid, StudiedDescription, StudiedCompleted(totalHours), StudiedIcon);
    UpsertInPlace(table, uuid, StudiedDescription, StudiedCompleted(totalHours), StudiedIcon);
    UpsertMarks(table, uuid, StudiedDescription, StudiedCompleted(totalHours), StudiedIcon);
    UpsertInPlace(studied, uuid, TomatoDescription, TomatoesCompleted(tomatoCount), TomatoIcon);
    UpsertMarks(studied, uuid, TomatoDescription, TomatoesCompleted(tomatoCount), TomatoIcon);
    UpsertKeepsOthers(studied, uuid, StudiedDescription, TomatoDescription, TomatoesCompleted(tomatoCount), TomatoIcon);
  }

  // ------------------------------------------------------------------ users

  predicate UsernameIs(username: Option<string>, e: UserEntity) {
    e.username == username
  }

  /** usersRepository.save for a user: overwrite the row with the same uuid, or append. */
  function SaveUser(users: seq<UserEntity>, entity: UserEntity): (r: seq<UserEntity>)
    ensures entity in r
    ensures forall u :: u in users && (entity.uuid.None? || u.uuid != entity.uuid) ==> u in r
    ensures |r| == |users| || r == users + [entity]
  {
    match if entity.uuid.Some? then Sequences.FindFirst(users, (u: UserEntity) => u.uuid == entity.uuid) else None
    case Some(k) =>
      assert users[k := entity][k] == entity;
      assert forall u :: u in users && u.uuid != entity.uuid ==> u in users[k := entity] by {
        forall u | u in users && u.uuid != entity.uuid ensures u in users[k := entity] {
          var i :| 0 <= i < |users| && users[i] == u;
          assert users[k := entity][i] == u;
        }
      }
      users[k := entity]
    case None => users + [entity]
  }

  /** The service with the two tables it writes. */
  class UsersControllers {
    var users: seq<UserEntity>
    var achievements: AchievementTable

    ghost predicate Valid()
      reads this
    {
      ValidTable(achievements)
    }

    constructor (users: seq<UserEntity>, achievements: AchievementTable)
      requires ValidTable(achievements)
      ensures Valid() && this.users == users && this.achievements == achievements
    {
      this.users := users;
      this.achievements := achievements;
    }

    /** findByUsername(username).isPresent(). */
    predicate UsernameTaken(username: Option<string>)
      reads this
    {
      exists i :: 0 <= i < |users| && users[i].username == username
    }

    /** createUser: null and an existing username are refused; otherwise the user is saved. */
    method CreateUser(userDto: Option<UserDto>) returns (r: Result<UserDto, Failure>)
      modifies this
      ensures achievements == old(achievements)
      ensures userDto.None? ==> r == Failure(IllegalArgument(UserDtoNull)) && users == old(users)
      ensures userDto.Some? && old(UsernameTaken(userDto.value.username)) ==>
        r == Failure(Conflict(UserExists)) && users == old(users)
      ensures userDto.Some? && !old(UsernameTaken(userDto.value.username)) ==>
        r == Success(userDto.value) && users == SaveUser(old(users), ConvertDtoToEntity(userDto).value)
    {
      if userDto.None? {
        return Failure(IllegalArgument(UserDtoNull));
      }
      if UsernameTaken(userDto.value.username) {
        return Failure(Conflict(UserExists));
      }
      var userEntity := ConvertDtoToEntity(userDto).value;
      users := SaveUser(users, userEntity);
      return Success(ConvertEntityToDto(Some(userEntity)).value);
    }

    /** getUser: the DTO of the first user with this uuid. */
    function GetUser(id: Option<Uuid>): (r: Result<UserDto, Failure>)
      reads this
      ensures id.None? ==> r == Failure(IllegalArgument(UuidNull))
      ensures r.Success? <==> id.Some? && exists i :: 0 <= i < |users| && users[i].uuid == id
      ensures r.Success? ==> exists i :: 0 <= i < |users| && users[i].uuid == id && Some(r.value) == ConvertEntityToDto(Some(users[i]))
      ensures id.Some? && r.Failure? ==> r.error == IllegalArgument("User with UUID '" + id.value.text + "' not found.")
    {
      if id.None? then Failure(IllegalArgument(UuidNull))
      else match Sequences.FindFirst(users, (u: UserEntity) => u.uuid == id)
        case Some(k) => Success(ConvertEntityToDto(Some(users[k])).value)
        case None => Failure(IllegalArgument("User with UUID '" + id.value.text + "' not found."))
    }

    /** getEmailByUsername: the email of the first user with this username. */
    function GetEmailByUsername(username: Option<string>): (r: Result<Option<string>, Failure>)
      reads this
      ensures username.None? || username == Some("") ==> r == Failure(IllegalArgument(UsernameNullOrEmpty))
      ensures r.Success? <==> username.Some? && username.value != "" && UsernameTaken(username)
      ensures r.Success? ==> exists i :: (0 <= i < |users| && users[i].username == username && r.value == users[i].email
                                          && forall j :: 0 <= j < i ==> users[j].username != username)
      ensures username.Some? && username.value != "" && r.Failure? ==>
        r.error == IllegalArgument("User with username '" + username.value + "' not found.")
    {
      if username.None? || username.value == "" then Failure(IllegalArgument(UsernameNullOrEmpty))
      else match Sequences.FindFirst(users, (u: UserEntity) => u.username == username)
        case Some(k) => Success(users[k].email)
        case None => Failure(IllegalArgument("User with username '" + username.value + "' not found."))
    }

    /** getUserUUIDByFirebaseUID: the uuid of the first user with this Firebase UID. */
    function GetUserUuidByFirebaseUid(firebaseUid: Option<string>): (r: Result<Option<Uuid>, Failure>)
      reads this
      ensures firebaseUid.None? || firebaseUid == Some("") ==> r == Failure(IllegalArgument(FirebaseUidNullOrEmpty))
      ensures r.Success? <==> (firebaseUid.Some? && firebaseUid.value != "" &&
                               exists i :: 0 <= i < |users| && users[i].firebaseUid == firebaseUid)
      ensures r.Success? ==> exists i :: (0 <= i < |users| && users[i].firebaseUid == firebaseUid && r.value == users[i].uuid
                                          && forall j :: 0 <= j < i ==> users[j].firebaseUid != firebaseUid)
      ensures firebaseUid.Some? && firebaseUid.value != "" && r.Failure? ==>
        r.error == IllegalArgument("User with Firebase UID '" + firebaseUid.value + "' not found.")
    {
      if firebaseUid.None? || firebaseUid.value == "" then Failure(IllegalArgument(FirebaseUidNullOrEmpty))
      else match Sequences.FindFirst(users, (u: UserEntity) => u.firebaseUid == firebaseUid)
        case Some(k) => Success(users[k].uuid)
        case None => Failure(IllegalArgument("User with Firebase UID '" + firebaseUid.value + "' not found."))
    }

    /**
     * getUserAchievements: an unknown user gets an empty list and nothing is saved; otherwise
     * both achievements are refreshed and the user's achievements are listed. `totalHours` and
     * `tomatoCount` are the repository's answers; a count outside the int range makes
     * Math.toIntExact throw after the first save.
     */
    method GetUserAchievements(uuid: Option<Uuid>, totalHours: Option<real>, tomatoCount: int)
      returns (r: Result<seq<AchievementDto>, Failure>)
      requires Valid()
      modifies this
      ensures Valid() && users == old(users)
      ensures uuid.None? ==> r == Failure(IllegalArgument(UuidNull)) && achievements == old(achievements)
      ensures uuid.Some? && (forall i :: 0 <= i < |users| ==> users[i].uuid != uuid) ==>
        r == Success([]) && achievements == old(achievements)
      ensures uuid.Some? && (exists i :: 0 <= i < |users| && users[i].uuid == uuid) && !(IntMin <= tomatoCount <= IntMax) ==>
        r == Failure(ArithmeticOverflow) &&
        achievements == UpsertAchievement(old(achievements), uuid.value, StudiedDescription, StudiedCompleted(totalHours), StudiedIcon)
      ensures uuid.Some? && (exists i :: 0 <= i < |users| && users[i].uuid == uuid) && IntMin <= tomatoCount <= IntMax ==>
        achievements == RefreshAchievements(old(achievements), uuid.value, totalHours, tomatoCount) &&
        r == Success(Sequences.Map(AchievementsOf(achievements.rows, uuid.value), AchievementToDto))
    {
      if uuid.None? {
        return Failure(IllegalArgument(UuidNull));
      }
      var u := uuid.value;
      if Sequences.FindFirst(users, (e: UserEntity) => e.uuid == uuid).None? {
        return Success([]);
      }
      var studiedCompleted := HoursOrZero(totalHours) >= 5.0;
      UpsertInPlace(achievements, u, StudiedDescription, studiedCompleted, StudiedIcon);
      achievements := UpsertAchievement(achievements, u, StudiedDescription, studiedCompleted, StudiedIcon);
      if !(IntMin <= tomatoCount <= IntMax) {
        return Failure(ArithmeticOverflow);
      }
      var tomatoCompleted := tomatoCount >= 10;
      UpsertInPlace(achievements, u, TomatoDescription, tomatoCompleted, TomatoIcon);
      achievements := UpsertAchievement(achievements, u, TomatoDescription, tomatoCompleted, TomatoIcon);
      return Success(Sequences.Map(AchievementsOf(achievements.rows, u), AchievementToDto));
    }
  }
}
