/** The live generation buffer: the in-progress files of the current stream,
    updated per `file_create`, `file_chunk` and `file_complete` event
    (App.tsx:209-211). */
module LiveBuffer {
  import opened Types

  /** `file_create`: the file joins the end of the buffer, with empty content
      and status `streaming`. */
  function Created(buf: seq<LiveFile>, f: File): (r: seq<LiveFile>)
    ensures |r| == |buf| + 1 && r[..|buf|] == buf
    ensures r[|buf|].name == f.name && r[|buf|].language == f.language
    ensures r[|buf|].content == [] && r[|buf|].status == Streaming
  {
    buf + [LiveFile(f.name, "", f.language, Streaming)]
  }

  /** `file_chunk`: every entry with that name has the chunk appended. */
  function AppendChunk(buf: seq<LiveFile>, name: string, chunk: string): (r: seq<LiveFile>)
    ensures |r| == |buf|
    ensures forall k :: 0 <= k < |r| ==> r[k].name == buf[k].name && r[k].language == buf[k].language
                                          && r[k].status == buf[k].status
    ensures forall k :: 0 <= k < |r| && buf[k].name != name ==> r[k] == buf[k]
    ensures forall k :: 0 <= k < |r| && buf[k].name == name ==> r[k].content == buf[k].content + chunk
    ensures (forall k :: 0 <= k < |buf| ==> buf[k].name != name) ==> r == buf
  {
    seq(|buf|, k requires 0 <= k < |buf| =>
      if buf[k].name == name then buf[k].(content := buf[k].content + chunk) else buf[k])
  }

  /** `file_complete`: every entry with that name is marked `completed`. */
  function MarkCompleted(buf: seq<LiveFile>, name: string): (r: seq<LiveFile>)
    ensures |r| == |buf|
    ensures forall k :: 0 <= k < |r| ==> r[k].name == buf[k].name && r[k].language == buf[k].language
                                          && r[k].content == buf[k].content
    ensures forall k :: 0 <= k < |r| && buf[k].name != name ==> r[k] == buf[k]
    ensures forall k :: 0 <= k < |r| && buf[k].name == name ==> r[k].status == Completed
  {
    seq(|buf|, k requires 0 <= k < |buf| =>
      if buf[k].name == name then buf[k].(status := Completed) else buf[k])
  }

  /** One event's effect on the buffer; the other event kinds leave it alone. */
  function ApplyEvent(buf: seq<LiveFile>, e: Event): (r: seq<LiveFile>)
    ensures |r| == |buf| + (if e.FileCreate? then 1 else 0)
    ensures !(e.FileCreate? || e.FileChunk? || e.FileComplete?) ==> r == buf
  {
    match e
    case FileCreate(f) => Created(buf, f)
    case FileChunk(name, chunk) => AppendChunk(buf, name, chunk)
    case FileComplete(name) => MarkCompleted(buf, name)
    case _ => buf
  }

  predicate IsFileEvent(e: Event) {
    e.FileCreate? || e.FileChunk? || e.FileComplete?
  }

  /** Number of `file_create` events. */
  function CreateCount(evs: seq<Event>): nat {
    if evs == [] then 0
    else CreateCount(evs[..|evs| - 1]) + (if evs[|evs| - 1].FileCreate? then 1 else 0)
  }

  /** The concatenated chunks addressed to `name`, in arrival order. */
  function ChunksFor(evs: seq<Event>, name: string): string {
    if evs == [] then []
    else
      var e := evs[|evs| - 1];
      ChunksFor(evs[..|evs| - 1], name) + (if e.FileChunk? && e.name == name then e.chunk else [])
  }

  predicate CompletedIn(evs: seq<Event>, name: string) {
    exists k :: 0 <= k < |evs| && evs[k] == FileComplete(name)
  }

  /** The buffer after the given events, starting from the empty buffer that
      each turn begins with; it holds one entry per `file_create`. */
  function BufferOf(evs: seq<Event>): (r: seq<LiveFile>)
    ensures |r| == CreateCount(evs)
  {
    if evs == [] then [] else ApplyEvent(BufferOf(evs[..|evs| - 1]), evs[|evs| - 1])
  }

  /** How one event changes an existing entry: a chunk for its name is
      appended, a completion for its name sets the status, nothing else
      touches it. */
  lemma EntryAfter(buf: seq<LiveFile>, k: nat, e: Event)
    requires k < |buf|
    ensures k < |ApplyEvent(buf, e)|
    ensures var b := ApplyEvent(buf, e)[k];
            && b.name == buf[k].name && b.language == buf[k].language
            && b.content == buf[k].content + (if e.FileChunk? && e.name == buf[k].name then e.chunk else [])
            && b.status == (if e.FileComplete? && e.name == buf[k].name then Completed else buf[k].status)
  {
    if e.FileCreate? {
      assert ApplyEvent(buf, e)[k] == buf[k];
    }
  }

  /** A name is completed after one more event exactly when it already was or
      that event completes it. */
  lemma CompletedInSnoc(evs: seq<Event>, e: Event, name: string)
    ensures CompletedIn(evs + [e], name) <==> CompletedIn(evs, name) || e == FileComplete(name)
  {
    var s := evs + [e];
    if CompletedIn(evs, name) {
      var j :| 0 <= j < |evs| && evs[j] == FileComplete(name);
      assert s[j] == evs[j];
    }
    if CompletedIn(s, name) && e != FileComplete(name) {
      var j :| 0 <= j < |s| && s[j] == FileComplete(name);
      assert j < |evs| && evs[j] == s[j];
    }
    if e == FileComplete(name) {
      assert s[|evs|] == e;
    }
  }

  /** The entry opened by a `file_create` holds that file's name and language,
      exactly the chunks sent to that name afterwards, and is completed exactly
      when a `file_complete` for that name followed. */
  lemma {:induction false} BufferEntry(pre: seq<Event>, f: File, post: seq<Event>)
    ensures var buf := BufferOf(pre + [FileCreate(f)] + post);
            && CreateCount(pre) < |buf|
            && buf[CreateCount(pre)]
               == LiveFile(f.name, ChunksFor(post, f.name), f.language,
                           if CompletedIn(post, f.name) then Completed else Streaming)
    decreases |post|
  {
    var s := pre + [FileCreate(f)] + post;
    if post == [] {
      assert s[..|s| - 1] == pre;
      assert !CompletedIn(post, f.name);
    } else {
      var post' := post[..|post| - 1];
      var e := post[|post| - 1];
      var s' := pre + [FileCreate(f)] + post';
      assert s[..|s| - 1] == s' && s[|s| - 1] == e;
      assert BufferOf(s) == ApplyEvent(BufferOf(s'), e);
      assert ChunksFor(post, f.name) == ChunksFor(post', f.name) + (if e.FileChunk? && e.name == f.name then e.chunk else []);
      BufferEntry(pre, f, post');
      EntryAfter(BufferOf(s'), CreateCount(pre), e);
      assert post == post' + [e];
      CompletedInSnoc(post', e, f.name);
    }
  }

  /** Events other than file events do not touch the buffer wherever they
      occur in the stream. */
  lemma {:induction false} OtherEventsLeaveBuffer(pre: seq<Event>, e: Event, post: seq<Event>)
    requires !IsFileEvent(e)
    ensures BufferOf(pre + [e] + post) == BufferOf(pre + post)
    decreases |post|
  {
    var s := pre + [e] + post;
    if post == [] {
      assert s[..|s| - 1] == pre;
      assert pre + post == pre;
    } else {
      var post' := post[..|post| - 1];
      assert s[..|s| - 1] == pre + [e] + post';
      assert (pre + post)[..|pre + post| - 1] == pre + post';
      assert s[|s| - 1] == (pre + post)[|pre + post| - 1];
      OtherEventsLeaveBuffer(pre, e, post');
    }
  }
}
