/** The open-now badge of js/main.js (`updateStatus` in `initOpenNowBadge`):
    from the weekday and the local time it decides whether the status
    indicator carries the `closed` class and which text it shows. The venue
    opens at 11:00 on Sunday and on Wednesday to Saturday. */
module OpenNowBadge {

  /** 11:00 AM in minutes since midnight. */
  const OpenTime: int := 11 * 60

  const OpenText: string := "Open Now"
  const OpensTodayText: string := "Closed – Opens at 11:00 AM"
  const OpensWednesdayText: string := "Closed – Opens Wednesday at 11:00 AM"

  /** What the badge shows: the indicator's `closed` class and the status text. */
  datatype Badge = Badge(closed: bool, text: string)

  /** Sunday (0) and Wednesday to Saturday (3-6). */
  predicate IsOpenDay(day: int) {
    day == 0 || day >= 3
  }

  /** The name the closed text gives for the next opening day: every branch of
      the source's conditional names Wednesday. */
  function NextOpenDay(day: int): (name: string)
    ensures name == "Wednesday"
  {
    if day == 0 then "Wednesday"
    else if day == 1 then "Wednesday"
    else if day == 2 then "Wednesday"
    else "Wednesday"
  }

  /** `updateStatus` for weekday `day` (0 is Sunday) at `hour`:`minute`. */
  function Status(day: int, hour: int, minute: int): (b: Badge)
    requires 0 <= day <= 6 && 0 <= hour < 24 && 0 <= minute < 60
    ensures b.text == OpenText <==> IsOpenDay(day) && OpenTime <= hour * 60 + minute
    ensures b.closed <==> b.text != OpenText
    ensures b.text == OpensTodayText <==> IsOpenDay(day) && hour * 60 + minute < OpenTime
    ensures b.text == OpensWednesdayText <==> day == 1 || day == 2
    ensures b.text in {OpenText, OpensTodayText, OpensWednesdayText}
  {
    var currentTime := hour * 60 + minute;
    if IsOpenDay(day) && currentTime >= OpenTime then
      Badge(false, OpenText)
    else if IsOpenDay(day) && currentTime < OpenTime then
      Badge(true, OpensTodayText)
    else
      Badge(true, "Closed – Opens " + NextOpenDay(day) + " at 11:00 AM")
  }
}
