/**
 * The post editor screen (app/editor/page.tsx): who may see it, what the
 * publish button checks, and the simulated autosave that drives the
 * header's status line.
 */
module Editor {
  import opened Wrappers
  import opened Strings
  import opened Auth
  import opened AuthContext
  import EditorHeader

  // ---------------------------------------------------------------- access

  /** What the screen renders. */
  datatype EditorView = LoadingEditor | AccessDenied | EditorScreen

  /** The loading view first, then the denial, then the editor. */
  function PageView(authLoading: bool, canEditBlog: bool): (v: EditorView)
    ensures authLoading <==> v == LoadingEditor
    ensures v == AccessDenied <==> !authLoading && !canEditBlog
  {
    if authLoading then LoadingEditor
    else if !canEditBlog then AccessDenied
    else EditorScreen
  }

  /** The effect that sends a signed-out visitor to `/`. */
  predicate RedirectsHome(authLoading: bool, user: Option<User>) {
    !authLoading && user.None?
  }

  /** With the session loaded, anyone signed in reaches the editor, since
      every role may manage its own posts; nobody is redirected then. */
  lemma SignedInNeverDenied(v: AuthContextValue)
    requires !v.isLoading && v.user.Some?
    ensures PageView(v.isLoading, CheckPermission(v.user, ManageBlogOwn)) == EditorScreen
    ensures !RedirectsHome(v.isLoading, v.user)
  {
    EveryRoleManagesOwnBlog(v.user.value.role);
  }

  /** A signed-out visitor sees the denial while the redirect is on its way;
      the denial is shown exactly when the permission is missing. */
  lemma SignedOutDeniedAndRedirected(v: AuthContextValue)
    requires !v.isLoading && v.user.None?
    ensures PageView(v.isLoading, CheckPermission(v.user, ManageBlogOwn)) == AccessDenied
    ensures RedirectsHome(v.isLoading, v.user)
  {
  }

  // ---------------------------------------------------------------- publish

  const NeedTitle := "Por favor, añade un título al post"
  const NeedContent := "Por favor, añade contenido al post"
  const ReadyPrefix := "¡Post listo para publicar!\n\nTítulo: "
  const PreviewSoon := "Vista previa próximamente"

  /** The alert handlePublish shows. */
  function PublishMessage(title: string, content: string): (m: string)
    ensures m == NeedTitle <==> IsBlank(title)
    ensures m == NeedContent <==> !IsBlank(title) && IsBlank(content)
  {
    if IsBlank(title) then NeedTitle
    else if IsBlank(content) then NeedContent
    else ReadyPrefix + title
  }

  /** A blank title is reported first, then blank content; otherwise the
      ready message quotes the untrimmed title. */
  lemma PublishChecksInOrder(title: string, content: string)
    ensures IsBlank(title) ==> PublishMessage(title, content) == NeedTitle
    ensures !IsBlank(title) && IsBlank(content) ==> PublishMessage(title, content) == NeedContent
    ensures !IsBlank(title) && !IsBlank(content) ==>
              var m := PublishMessage(title, content);
              StartsWith(m, ReadyPrefix) && m[|ReadyPrefix|..] == title
  {
    if !IsBlank(title) && !IsBlank(content) {
      var m := ReadyPrefix + title;
      assert m[..|ReadyPrefix|] == ReadyPrefix;
    }
  }

  // ---------------------------------------------------------------- autosave

  /** The autosave state: the `isSaving` flag, whether a 1.5 s timer is
      pending, and the time of the last save (milliseconds). */
  datatype Autosave = Autosave(isSaving: bool, timerPending: bool, lastSaved: Option<int>)

  const Idle := Autosave(false, false, None)

  /** As written: a change of title or content first cancels the pending
      timer, then, when either text is non-empty, raises the flag and
      starts a new timer. Clearing both texts leaves the flag as it was. */
  function EditAsWritten(a: Autosave, title: string, content: string): (r: Autosave)
    ensures r.lastSaved == a.lastSaved
    ensures r.timerPending <==> title != "" || content != ""
    ensures r.isSaving <==> a.isSaving || title != "" || content != ""
  {
    var cleared := a.(timerPending := false);
    if title != "" || content != "" then cleared.(isSaving := true, timerPending := true)
    else cleared
  }

  /** Corrected: clearing both texts also lowers the flag. */
  function Edit(a: Autosave, title: string, content: string): (r: Autosave)
    ensures r.lastSaved == a.lastSaved
    ensures r.isSaving <==> title != "" || content != ""
    ensures r.timerPending == r.isSaving
  {
    var cleared := a.(timerPending := false);
    if title != "" || content != "" then cleared.(isSaving := true, timerPending := true)
    else cleared.(isSaving := false)
  }

  /** The timer's callback: the flag drops and the save time is recorded. */
  function TimerFires(a: Autosave, now: int): (r: Autosave)
    ensures a.timerPending ==> r == Autosave(false, false, Some(now))
    ensures !a.timerPending ==> r == a
  {
    if a.timerPending then Autosave(false, false, Some(now)) else a
  }

  /** The flag is up only while a timer is on its way to lower it. */
  predicate SavingHasTimer(a: Autosave) {
    a.isSaving ==> a.timerPending
  }

  /** The corrected edit and the timer keep that invariant. */
  lemma AutosaveKeepsInvariant(a: Autosave, title: string, content: string, now: int)
    requires SavingHasTimer(a)
    ensures SavingHasTimer(Edit(a, title, content))
    ensures SavingHasTimer(TimerFires(a, now))
    ensures !TimerFires(Edit(a, title, content), now).isSaving
  {
  }

  /** As written, typing a title and then deleting it before the timer
      fires cancels the timer but keeps the flag up: the header says
      "Guardando..." for good. */
  lemma ClearingLeavesSavingStuck(now: int, clock: string)
    ensures var a := TimerFires(EditAsWritten(EditAsWritten(Idle, "T", ""), "", ""), now);
            a.isSaving && !a.timerPending && !SavingHasTimer(a)
            && EditorHeader.StatusText(a.isSaving, a.lastSaved, now, clock) == EditorHeader.SavingNow
  {
  }

  /** Corrected, the same sequence ends with nothing saving and nothing saved. */
  lemma ClearingStopsSaving(now: int, clock: string)
    ensures var a := TimerFires(Edit(Edit(Idle, "T", ""), "", ""), now);
            a == Idle && EditorHeader.StatusText(a.isSaving, a.lastSaved, now, clock) == EditorHeader.Unsaved
  {
  }

  /** The editor screen's state. */
  class EditorPage {
    var title: string
    var content: string
    var autosave: Autosave
    var alerts: seq<string>

    constructor ()
      ensures title == "" && content == "" && autosave == Idle && alerts == []
    {
      title := "";
      content := "";
      autosave := Idle;
      alerts := [];
    }

    /** The document editor reports new texts; the autosave effect runs as
        written: the pending timer is cancelled, and the flag is raised with a
        new timer only when either text is non-empty. */
    method ChangeText(newTitle: string, newContent: string)
      modifies this`title, this`content, this`autosave
      ensures title == newTitle && content == newContent
      ensures autosave == EditAsWritten(old(autosave), newTitle, newContent)
    {
      title := newTitle;
      content := newContent;
      var pending := false;
      var saving := autosave.isSaving;
      if title != "" || content != "" {
        saving := true;
        pending := true;
      }
      autosave := Autosave(saving, pending, autosave.lastSaved);
    }

    /** The pending timer fires at `now`. */
    method AutosaveElapsed(now: int)
      modifies this`autosave
      ensures autosave == TimerFires(old(autosave), now)
    {
      if autosave.timerPending {
        autosave := Autosave(false, false, Some(now));
      }
    }

    /** handlePublish: one alert, chosen by the checks. */
    method HandlePublish()
      modifies this`alerts
      ensures alerts == old(alerts) + [PublishMessage(title, content)]
    {
      var message: string;
      if IsBlank(title) {
        message := NeedTitle;
      } else if IsBlank(content) {
        message := NeedContent;
      } else {
        message := ReadyPrefix + title;
      }
      alerts := alerts + [message];
    }

    /** handlePreview: the preview is not built yet, so one fixed alert. */
    method HandlePreview()
      modifies this`alerts
      ensures alerts == old(alerts) + [PreviewSoon]
    {
      alerts := alerts + [PreviewSoon];
    }
  }
}
