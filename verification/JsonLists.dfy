/** The two list endpoints: every peer and every job, printed with the escaper. */
module JsonLists {
  import opened Text
  import opened Json
  import opened JsonRecords
  import opened PeerRegistry
  import TQ = TransferQueue

  // ----- one peer -----

  function PeerText(n: string, i: string, port: string, active: string, paired: string, seen: string): string {
    "{\"name\":\"" + n + "\",\"ip\":\"" + i
    + ("\",\"port\":" + port + ",\"active\":" + active + ",\"paired\":" + paired + ",\"last_seen\":" + seen + "}")
  }

  function RenderPeer(p: Peer): string {
    PeerText(Escape(p.name), Escape(p.ip), NatString(p.port), BoolText(p.active), BoolText(p.paired),
             IntString(p.lastSeen))
  }

  function PeerMembers(p: Peer): seq<Member> {
    [Member("name", String(p.name)), Member("ip", String(p.ip)), Member("port", Number(p.port)),
     Member("active", Bool(p.active)), Member("paired", Bool(p.paired)), Member("last_seen", Number(p.lastSeen))]
  }

  function PeerFields(n: string, i: string, port: string, active: string, paired: string, seen: string): seq<string> {
    [StringField("name", n), StringField("ip", i), RawField("port", port),
     RawField("active", active), RawField("paired", paired), RawField("last_seen", seen)]
  }

  lemma PeerFieldsOf(p: Peer)
    ensures MemberTexts(PeerMembers(p)) == PeerFields(Escape(p.name), Escape(p.ip), NatString(p.port),
      BoolText(p.active), BoolText(p.paired), IntString(p.lastSeen))
  {
    hide MemberTexts, PrintMember, StringField, RawField, Escape, NatString, IntString, AllPlain, PeerMembers, BoolText;
    KeysPlain();
    PrintString("name", p.name);
    PrintString("ip", p.ip);
    PrintNat("port", p.port);
    PrintBool("active", p.active);
    PrintBool("paired", p.paired);
    PrintInt("last_seen", p.lastSeen);
    PeerMemberTexts(p);
  }

  lemma KeysPlain()
    ensures AllPlain("name") && AllPlain("ip") && AllPlain("port") && AllPlain("active") && AllPlain("paired")
    ensures AllPlain("last_seen")
  {
  }

  lemma PeerMemberTexts(p: Peer)
    ensures MemberTexts(PeerMembers(p)) ==
      [PrintMember(Member("name", String(p.name))), PrintMember(Member("ip", String(p.ip))),
       PrintMember(Member("port", Number(p.port))), PrintMember(Member("active", Bool(p.active))),
       PrintMember(Member("paired", Bool(p.paired))), PrintMember(Member("last_seen", Number(p.lastSeen)))]
  {
    hide PrintMember;
  }

  lemma AppendPieces(t: string, a: string, b: string, c: string, d: string, e: string, f: string, g: string,
                     h: string, i: string)
    ensures t + (a + b + c + d + e + f + g + h + i) == t + a + b + c + d + e + f + g + h + i
  {
    Regroup(t, a + b + c + d + e + f + g + h, i);
    Regroup(t, a + b + c + d + e + f + g, h);
    Regroup(t, a + b + c + d + e + f, g);
    Regroup(t, a + b + c + d + e, f);
    Regroup(t, a + b + c + d, e);
    Regroup(t, a + b + c, d);
    Regroup(t, a + b, c);
    Regroup(t, a, b);
  }

  lemma FieldsOf6(a: string, b: string, c: string, d: string, e: string, f: string)
    ensures Fields([a, b, c, d, e, f]) == "{" + a + "," + b + "," + c + "," + d + "," + e + "," + f
  {
    assert Fields([a]) == "{" + a;
    hide Fields;
    FieldsSnoc([a], b);
    assert [a] + [b] == [a, b];
    FieldsSnoc([a, b], c);
    assert [a, b] + [c] == [a, b, c];
    FieldsSnoc([a, b, c], d);
    assert [a, b, c] + [d] == [a, b, c, d];
    FieldsSnoc([a, b, c, d], e);
    assert [a, b, c, d] + [e] == [a, b, c, d, e];
    FieldsSnoc([a, b, c, d, e], f);
    assert [a, b, c, d, e] + [f] == [a, b, c, d, e, f];
  }

  /** The literals between two values, as the renderer cuts them. */
  lemma PeerKeys()
    ensures "{\"" + "name" + "\":\"" == "{\"name\":\""
    ensures "\",\"" + "ip" + "\":\"" == "\",\"ip\":\""
    ensures "\",\"" + "port" + "\":" == "\",\"port\":"
    ensures ",\"" + "active" + "\":" == ",\"active\":"
    ensures ",\"" + "paired" + "\":" == ",\"paired\":"
    ensures ",\"" + "last_seen" + "\":" == ",\"last_seen\":"
  {
  }

  lemma PeerTextFields(n: string, i: string, port: string, active: string, paired: string, seen: string)
    ensures PeerText(n, i, port, active, paired, seen) == Fields(PeerFields(n, i, port, active, paired, seen)) + "}"
  {
    var f := PeerFields(n, i, port, active, paired, seen);
    PeerKeys();
    hide Fields, StringField, RawField;
    FieldsOf6(f[0], f[1], f[2], f[3], f[4], f[5]);
    FirstString("name", n);
    var t1 := "{\"name\":\"" + n;
    StringAfterString(t1, "ip", i);
    var t2 := t1 + "\",\"ip\":\"" + i;
    RawAfterString(t2, "port", port);
    var t3 := t2 + "\",\"port\":" + port;
    RawAfterRaw(t3, "active", active);
    var t4 := t3 + ",\"active\":" + active;
    RawAfterRaw(t4, "paired", paired);
    var t5 := t4 + ",\"paired\":" + paired;
    RawAfterRaw(t5, "last_seen", seen);
    AppendPieces(t2, "\",\"port\":", port, ",\"active\":", active, ",\"paired\":", paired,
                 ",\"last_seen\":", seen, "}");
  }

  /** The peer renderer prints exactly the compact form of the peer's object. */
  lemma RenderPeerIsPrint(p: Peer)
    ensures RenderPeer(p) == Print(Object(PeerMembers(p)))
  {
    hide Escape, NatString, IntString, BoolText, PeerText, MemberTexts, Fields, PeerFields;
    PeerFieldsOf(p);
    PeerTextFields(Escape(p.name), Escape(p.ip), NatString(p.port), BoolText(p.active), BoolText(p.paired),
                   IntString(p.lastSeen));
    PrintObject(PeerMembers(p), PeerFields(Escape(p.name), Escape(p.ip), NatString(p.port), BoolText(p.active),
                                           BoolText(p.paired), IntString(p.lastSeen)));
  }

  // ----- one job -----

  /** What a status query shows of a job. */
  datatype JobView = JobView(jobId: string, status: TQ.Status, targetIp: string, targetPort: nat,
                             bytesSent: nat, totalBytes: nat, createdAt: int, updatedAt: int, errorMessage: string)

  function ViewOf(j: TQ.Job): JobView {
    JobView(j.jobId, j.status, j.targetIp, j.targetPort, j.bytesSent, j.totalBytes, j.createdAt, j.updatedAt,
            j.errorMessage)
  }

  function StatusName(s: TQ.Status): string {
    match s
    case Queued => "queued"
    case InProgress => "in_progress"
    case Completed => "completed"
    case Failed => "failed"
    case Unused => "unused"
  }

  /** The part of a job printed by one format directive. */
  function JobNumbers(port: string, sent: string, total: string, created: string, updated: string): string {
    "\",\"target_port\":" + port + ",\"bytes_sent\":" + sent + ",\"total_bytes\":" + total
    + ",\"created_at\":" + created + ",\"updated_at\":" + updated + ",\"error_message\":\""
  }

  function JobText(id: string, status: string, ip: string, numbers: string, error: string): string {
    "{\"job_id\":\"" + id + "\",\"status\":\"" + status + "\",\"target_ip\":\"" + ip + numbers + error + "\"}"
  }

  function RenderJob(j: JobView): string {
    JobText(Escape(j.jobId), Escape(StatusName(j.status)), Escape(j.targetIp),
            JobNumbers(NatString(j.targetPort), NatString(j.bytesSent), NatString(j.totalBytes),
                       IntString(j.createdAt), IntString(j.updatedAt)),
            Escape(j.errorMessage))
  }

  function JobMembers(j: JobView): seq<Member> {
    [Member("job_id", String(j.jobId)), Member("status", String(StatusName(j.status))),
     Member("target_ip", String(j.targetIp)), Member("target_port", Number(j.targetPort)),
     Member("bytes_sent", Number(j.bytesSent)), Member("total_bytes", Number(j.totalBytes)),
     Member("created_at", Number(j.createdAt)), Member("updated_at", Number(j.updatedAt)),
     Member("error_message", String(j.errorMessage))]
  }

  function JobFields(id: string, status: string, ip: string, port: string, sent: string, total: string,
                     created: string, updated: string, error: string): seq<string> {
    [StringField("job_id", id), StringField("status", status), StringField("target_ip", ip),
     RawField("target_port", port), RawField("bytes_sent", sent), RawField("total_bytes", total),
     RawField("created_at", created), RawField("updated_at", updated), StringField("error_message", error)]
  }

  lemma JobKeysPlain()
    ensures AllPlain("job_id") && AllPlain("status") && AllPlain("target_ip") && AllPlain("target_port")
    ensures AllPlain("bytes_sent") && AllPlain("total_bytes") && AllPlain("created_at") && AllPlain("updated_at")
    ensures AllPlain("error_message")
  {
  }

  lemma JobMemberTexts(j: JobView)
    ensures MemberTexts(JobMembers(j)) ==
      [PrintMember(Member("job_id", String(j.jobId))), PrintMember(Member("status", String(StatusName(j.status)))),
       PrintMember(Member("target_ip", String(j.targetIp))), PrintMember(Member("target_port", Number(j.targetPort))),
       PrintMember(Member("bytes_sent", Number(j.bytesSent))), PrintMember(Member("total_bytes", Number(j.totalBytes))),
       PrintMember(Member("created_at", Number(j.createdAt))), PrintMember(Member("updated_at", Number(j.updatedAt))),
       PrintMember(Member("error_message", String(j.errorMessage)))]
  {
    hide PrintMember, StatusName;
  }

  lemma JobFieldsOf(j: JobView)
    ensures MemberTexts(JobMembers(j)) ==
      JobFields(Escape(j.jobId), Escape(StatusName(j.status)), Escape(j.targetIp), NatString(j.targetPort),
                NatString(j.bytesSent), NatString(j.totalBytes), IntString(j.createdAt), IntString(j.updatedAt),
                Escape(j.errorMessage))
  {
    hide MemberTexts, PrintMember, StringField, RawField, Escape, NatString, IntString, AllPlain, JobMembers;
    hide StatusName;
    JobKeysPlain();
    PrintString("job_id", j.jobId);
    PrintString("status", StatusName(j.status));
    PrintString("target_ip", j.targetIp);
    PrintNat("target_port", j.targetPort);
    PrintNat("bytes_sent", j.bytesSent);
    PrintNat("total_bytes", j.totalBytes);
    PrintInt("created_at", j.createdAt);
    PrintInt("updated_at", j.updatedAt);
    PrintString("error_message", j.errorMessage);
    JobMemberTexts(j);
  }

  lemma FieldsOf9(a: string, b: string, c: string, d: string, e: string, f: string, g: string, h: string, i: string)
    ensures Fields([a, b, c, d, e, f, g, h, i])
      == "{" + a + "," + b + "," + c + "," + d + "," + e + "," + f + "," + g + "," + h + "," + i
  {
    hide Fields;
    FieldsOf6(a, b, c, d, e, f);
    FieldsSnoc([a, b, c, d, e, f], g);
    assert [a, b, c, d, e, f] + [g] == [a, b, c, d, e, f, g];
    FieldsSnoc([a, b, c, d, e, f, g], h);
    assert [a, b, c, d, e, f, g] + [h] == [a, b, c, d, e, f, g, h];
    FieldsSnoc([a, b, c, d, e, f, g, h], i);
    assert [a, b, c, d, e, f, g, h] + [i] == [a, b, c, d, e, f, g, h, i];
  }

  lemma JobKeys()
    ensures "{\"" + "job_id" + "\":\"" == "{\"job_id\":\""
    ensures "\",\"" + "status" + "\":\"" == "\",\"status\":\""
    ensures "\",\"" + "target_ip" + "\":\"" == "\",\"target_ip\":\""
    ensures "\",\"" + "target_port" + "\":" == "\",\"target_port\":"
    ensures ",\"" + "bytes_sent" + "\":" == ",\"bytes_sent\":"
    ensures ",\"" + "total_bytes" + "\":" == ",\"total_bytes\":"
    ensures ",\"" + "created_at" + "\":" == ",\"created_at\":"
    ensures ",\"" + "updated_at" + "\":" == ",\"updated_at\":"
    ensures ",\"" + "error_message" + "\":\"" == ",\"error_message\":\""
  {
  }

  lemma AppendNumbers(t: string, port: string, sent: string, total: string, created: string, updated: string)
    ensures t + JobNumbers(port, sent, total, created, updated) ==
      t + "\",\"target_port\":" + port + ",\"bytes_sent\":" + sent + ",\"total_bytes\":" + total
      + ",\"created_at\":" + created + ",\"updated_at\":" + updated + ",\"error_message\":\""
  {
    var a := "\",\"target_port\":" + port + ",\"bytes_sent\":" + sent + ",\"total_bytes\":" + total
      + ",\"created_at\":" + created;
    Regroup(t, a + ",\"updated_at\":" + updated, ",\"error_message\":\"");
    Regroup(t, a + ",\"updated_at\":", updated);
    Regroup(t, a, ",\"updated_at\":");
    AppendPieces(t, "\",\"target_port\":", port, ",\"bytes_sent\":", sent, ",\"total_bytes\":", total,
                 ",\"created_at\":", created, "");
    assert a + "" == a;
  }

  lemma JobTextFields(id: string, status: string, ip: string, port: string, sent: string, total: string,
                      created: string, updated: string, error: string)
    ensures JobText(id, status, ip, JobNumbers(port, sent, total, created, updated), error)
      == Fields(JobFields(id, status, ip, port, sent, total, created, updated, error)) + "}"
  {
    var f := JobFields(id, status, ip, port, sent, total, created, updated, error);
    JobKeys();
    hide Fields, StringField, RawField, JobNumbers;
    FieldsOf9(f[0], f[1], f[2], f[3], f[4], f[5], f[6], f[7], f[8]);
    FirstString("job_id", id);
    var t1 := "{\"job_id\":\"" + id;
    StringAfterString(t1, "status", status);
    var t2 := t1 + "\",\"status\":\"" + status;
    StringAfterString(t2, "target_ip", ip);
    var t3 := t2 + "\",\"target_ip\":\"" + ip;
    RawAfterString(t3, "target_port", port);
    var t4 := t3 + "\",\"target_port\":" + port;
    RawAfterRaw(t4, "bytes_sent", sent);
    var t5 := t4 + ",\"bytes_sent\":" + sent;
    RawAfterRaw(t5, "total_bytes", total);
    var t6 := t5 + ",\"total_bytes\":" + total;
    RawAfterRaw(t6, "created_at", created);
    var t7 := t6 + ",\"created_at\":" + created;
    RawAfterRaw(t7, "updated_at", updated);
    var t8 := t7 + ",\"updated_at\":" + updated;
    StringAfterRaw(t8, "error_message", error);
    AppendNumbers(t3, port, sent, total, created, updated);
    Regroup(t8 + ",\"error_message\":\"" + error, "\"", "}");
    assert "\"" + "}" == "\"}";
  }

  /** The job renderer prints exactly the compact form of the job's object. */
  lemma RenderJobIsPrint(j: JobView)
    ensures RenderJob(j) == Print(Object(JobMembers(j)))
  {
    hide Escape, NatString, IntString, JobText, JobNumbers, MemberTexts, Fields, JobFields, StatusName;
    JobFieldsOf(j);
    var id, status := Escape(j.jobId), Escape(StatusName(j.status));
    var ip, error := Escape(j.targetIp), Escape(j.errorMessage);
    var port, sent, total := NatString(j.targetPort), NatString(j.bytesSent), NatString(j.totalBytes);
    var created, updated := IntString(j.createdAt), IntString(j.updatedAt);
    JobTextFields(id, status, ip, port, sent, total, created, updated, error);
    PrintObject(JobMembers(j), JobFields(id, status, ip, port, sent, total, created, updated, error));
  }
}
