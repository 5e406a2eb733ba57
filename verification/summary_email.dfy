/** The appointment notification of AI_VoiceAgent_Creation.py: `send_summary_email` composes
    the message and its envelope, and the `/agent/on-room-ended` webhook fills in defaults
    for missing request fields before calling it. */
module SummaryEmail {
  import opened Wrappers
  import opened Text

  const Subject := "New Appointment Intake"
  const Sender := "no-reply@yourdomain.com"

  /** The fixed distribution list, in the order it is joined into the `To` header. */
  const Recipients: seq<string> := ["jeff@assorthealth.com", "connor@assorthealth.com", "cole@assorthealth.com"]

  const ScheduledWith := " has scheduled an appointment with "
  const On := " on "

  /** A composed plain-text message: the three headers and the body. */
  datatype Message = Message(subject: string, sender: string, toHeader: string, body: string)

  /** The body text: `"{name} has scheduled an appointment with {doctor} on {time}."`. */
  function Body(name: string, doctor: string, time: string): (b: string)
    ensures |b| == |name| + |ScheduledWith| + |doctor| + |On| + |time| + 1
    ensures b[..|name|] == name
    ensures b[|name|..|name| + |ScheduledWith|] == ScheduledWith
    ensures b[|name| + |ScheduledWith|..|name| + |ScheduledWith| + |doctor|] == doctor
    ensures b[|b| - |time| - 1 - |On|..|b| - |time| - 1] == On
    ensures b[|b| - |time| - 1..|b| - 1] == time
    ensures b[|b| - 1] == '.'
  {
    name + ScheduledWith + doctor + On + time + "."
  }

  /** Given where the name and doctor end, the body gives back all three fields. */
  function BodyFields(b: string, nameLength: nat, doctorLength: nat): (r: Option<(string, string, string)>)
  {
    var doctorStart := nameLength + |ScheduledWith|;
    var timeStart := doctorStart + doctorLength + |On|;
    if timeStart + 1 <= |b| then
      Some((b[..nameLength], b[doctorStart..doctorStart + doctorLength], b[timeStart..|b| - 1]))
    else None
  }

  /** Reading the fields back out of a composed body recovers the name, doctor and time. */
  lemma BodyRoundTrip(name: string, doctor: string, time: string)
    ensures BodyFields(Body(name, doctor, time), |name|, |doctor|) == Some((name, doctor, time))
  {
    var b := Body(name, doctor, time);
    assert b[|name| + |ScheduledWith| + |doctor| + |On|..|b| - 1] == time;
  }

  /** The message `send_summary_email` builds before handing it to SMTP. */
  function Compose(name: string, doctor: string, time: string): (m: Message)
    ensures m.subject == Subject && m.sender == Sender
    ensures m.body == Body(name, doctor, time)
    ensures m.toHeader == Join(Recipients, CommaSpace)
  {
    Message(Subject, Sender, Join(Recipients, CommaSpace), Body(name, doctor, time))
  }

  /** The envelope recipients: `msg["To"].split(", ")`. */
  function EnvelopeRecipients(m: Message): (r: seq<string>)
    ensures |r| >= 1
  {
    Split(m.toHeader, CommaSpace)
  }

  /** The envelope goes to exactly the three addresses of the distribution list, in order:
      splitting the joined `To` header recovers them because none contains ", ". */
  lemma EnvelopeIsDistributionList(name: string, doctor: string, time: string)
    ensures EnvelopeRecipients(Compose(name, doctor, time)) == Recipients
  {
    forall k | 0 <= k < |Recipients|
      ensures !Contains(Recipients[k], CommaSpace)
    {
      NoCommaNoSeparator(Recipients[k]);
    }
    SplitJoin(Recipients);
  }

  const PatientNameKey := "patient_name"
  const DoctorNameKey := "doctor_name"
  const AppointmentTimeKey := "appointment_time"

  const DefaultPatient := "Unknown Patient"
  const DefaultDoctor := "Unspecified Doctor"
  const DefaultTime := "Unknown Time"

  /** The webhook's answer; `on_room_ended` returns it whether or not SMTP delivery worked,
      because `send_summary_email` catches and prints every delivery failure. */
  const WebhookStatus := "Summary email sent."

  /** The value under `key`, if the request body has one. */
  function Lookup(data: map<string, string>, key: string): Option<string>
  {
    if key in data then Some(data[key]) else None
  }

  /** The name, doctor and time `on_room_ended` reads from the request body. */
  function RequestFields(data: map<string, string>): (r: (string, string, string))
    ensures PatientNameKey in data ==> r.0 == data[PatientNameKey]
    ensures PatientNameKey !in data ==> r.0 == DefaultPatient
    ensures DoctorNameKey in data ==> r.1 == data[DoctorNameKey]
    ensures DoctorNameKey !in data ==> r.1 == DefaultDoctor
    ensures AppointmentTimeKey in data ==> r.2 == data[AppointmentTimeKey]
    ensures AppointmentTimeKey !in data ==> r.2 == DefaultTime
  {
    (Lookup(data, PatientNameKey).GetOr(DefaultPatient),
     Lookup(data, DoctorNameKey).GetOr(DefaultDoctor),
     Lookup(data, AppointmentTimeKey).GetOr(DefaultTime))
  }

  /** What the webhook does: the message handed to SMTP, and the status it answers with. */
  datatype WebhookReply = WebhookReply(email: Message, status: string)

  /** `on_room_ended` for the request body `data`. */
  function OnRoomEnded(data: map<string, string>): (r: WebhookReply)
    ensures r.status == WebhookStatus
    ensures EnvelopeRecipients(r.email) == Recipients
    ensures var f := RequestFields(data); r.email == Compose(f.0, f.1, f.2)
  {
    var f := RequestFields(data);
    EnvelopeIsDistributionList(f.0, f.1, f.2);
    WebhookReply(Compose(f.0, f.1, f.2), WebhookStatus)
  }
}
