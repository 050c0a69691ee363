/** The domain records that the bookmark use case and the bookmark list read.
    Only the fields those two read are modelled: a session's id, its start
    time, its tags and its speakers. */
module SessionModel {

  type SessionId = string

  datatype Tag = Tag(name: string)

  datatype Speaker = Speaker(name: string)

  /** A conference session. `startTime` stands for the session's local
      date-time; only its total order matters here, so it is an integer
      (for instance, minutes since an epoch). */
  datatype Session = Session(
    id: SessionId,
    startTime: int,
    tags: seq<Tag>,
    speakers: seq<Speaker>
  )
}
