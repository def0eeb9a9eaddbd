/** What a sink of DataProto tells its user about the link: up and down reports by a job. */
module DataProtoUp {

  class Sink {
    var receiveTimerRunning: bool
    var up: bool
    var upReport: bool
    var upJob: bool
    // the values the handler has been called with
    ghost var reports: seq<bool>

    /** The reports are up, down, up, ... and the job is pending while the last one is out of date. */
    ghost predicate Valid()
      reads this
    {
      && (upJob <==> up != upReport)
      && (up ==> receiveTimerRunning)
      && upReport == (|reports| % 2 == 1)
      && (forall i :: 0 <= i < |reports| ==> reports[i] == (i % 2 == 0))
    }

    constructor ()
      ensures Valid() && !up && reports == []
    {
      receiveTimerRunning, up, upReport, upJob := false, false, false, false;
      reports := [];
    }

    /** refresh_up_job */
    method RefreshUpJob()
      modifies this`upJob
      ensures upJob <==> up != upReport
    {
      if up != upReport {
        upJob := true;
      } else {
        upJob := false;
      }
    }

    method ReceiveTimerHandler()
      requires Valid() && receiveTimerRunning
      modifies this
      ensures Valid() && !up && !receiveTimerRunning && reports == old(reports)
    {
      receiveTimerRunning := false;
      up := false;
      RefreshUpJob();
    }

    /** DataProtoSink_Received; the result is whether a keep-alive is sent. */
    method Received(peerReceiving: bool) returns (sendKeepalive: bool)
      requires Valid()
      modifies this
      ensures Valid() && receiveTimerRunning && up == peerReceiving && reports == old(reports)
      ensures sendKeepalive == !peerReceiving
    {
      receiveTimerRunning := true;
      if !peerReceiving {
        up := false;
        sendKeepalive := true;
      } else {
        up := true;
        sendKeepalive := false;
      }
      RefreshUpJob();
    }

    /** up_job_handler, run by the job, which is then not pending */
    method UpJobHandler() returns (report: bool)
      requires Valid() && upJob
      modifies this
      ensures Valid() && !upJob && up == old(up) && report == up
      ensures reports == old(reports) + [report] && (old(reports) != [] ==> report != old(reports)[|old(reports)| - 1])
    {
      upJob := false;
      assert up != upReport;
      upReport := up;
      reports := reports + [up];
      report := up;
    }
  }
}
