/** ActivityLogService.cs: the append-only `ActivityLogs` collection. The
    timestamp `DateTime.UtcNow` is the parameter `now`. */
module ActivityLogService {
  import opened Models

  class LogsCollection {
    var logs: seq<ActivityLog>

    constructor (initial: seq<ActivityLog>)
      ensures logs == initial
    {
      logs := initial;
    }

    /** `LogAsync`: append one entry stamped with the current time; earlier
        entries are untouched. */
    method Log(userId: string, userName: string, role: string, action: string, details: string, now: int)
      modifies this
      ensures logs == old(logs) + [ActivityLog(userId, userName, role, action, details, now)]
      ensures |logs| == |old(logs)| + 1 && logs[..|old(logs)|] == old(logs)
    {
      logs := logs + [ActivityLog(userId, userName, role, action, details, now)];
    }
  }
}
