# Bulk Resume Sender: a verified model of the send button

`app.py` is a Streamlit page that sends one cold email with a PDF resume attached to
each recipient in a list. This project models what happens when the operator presses
"Start Sending Emails":

- **Recipient parser** (`Recipients`, built on `PyText`): the free text is stripped
  once and split on the two-character sequence backslash, `n` (the separator exactly
  as the code writes it, `"\\n"`). Each piece is split on its first comma, pieces
  without a comma are dropped, and both halves are stripped. A real line break is not a
  separator: text typed on several lines is a single piece, so it gives at most one
  recipient, whose company holds the rest of the text.
- **Body renderer** (`Template`): `email_body_template.format(company=..., email=...)`
  over literal text, the escapes `{{` and `}}`, and the bare fields `{company}` (the
  recipient's company) and `{email}` (the sender's own address, never the
  recipient's). Any other field and any stray brace is an error.
- **Session** (`Session`): a missing upload fails first, then an empty address or app
  password, then a failed connection or login; otherwise every recipient is attempted
  once, in order. A render error or a refused message adds one
  `{recipient, error}` entry to `failures` and the loop goes on. After the i-th
  recipient the progress value is i of the number of recipients.

The SMTP server is an oracle. Whether connecting and logging in works is the input
`connectError`. What `sendmail` does with the message for the i-th parsed recipient
is `deliveries[i]`. The model records the messages handed to `sendmail`, the
`failures` list and the progress values.

Within the modelled part of the format language, the company is only ever substituted,
so whether a body renders depends on the template alone. A template that does not
render fails every recipient, each with its own failure entry
(`Session.TemplateErrorFailsEveryRecipient`).

The code has no daily send limit, no sent log, no deduplication, no scheduled start and no CSV
import. It does not reject an empty template or an empty recipient list: with no
recipients it connects, sends nothing and finishes. Any field other than `company` and
`email` raises; it is not passed through.

Modules: `Wrappers` (Option, Result), `Seqs` (keeping the accepted elements of a
sequence, with the positions they came from), `PyText` (Python's `strip`, `split(sep)`
and `split(",", 1)`), `Recipients`, `Template`, `Session`.

## Model

| member | source | states |
|---|---|---|
| `PyText.Strip` | app.py:39 | `strip()`; no contract of its own, its meaning is fixed by `StripShape` and `StripIdempotent` |
| `PyText.StripShape` | app.py:39 | `strip()` removes exactly an all-whitespace prefix and suffix, and the result neither starts nor ends with whitespace |
| `PyText.StripIdempotent` | app.py:43 | stripping a field twice gives the same as stripping it once |
| `PyText.LeadingSpace` | app.py:39 | the whitespace that `strip()` removes in front is the longest all-whitespace prefix |
| `PyText.TrailingStart` | app.py:39 | the whitespace that `strip()` removes at the end is the longest all-whitespace suffix |
| `PyText.Split` | app.py:39 | `split(sep)`; no contract of its own, it is `SplitFrom` from the start of the text, whose contract fixes it |
| `PyText.SplitFrom` | app.py:39 | `split(sep)` gives at least one piece, no piece contains the separator, and joining the pieces with the separator gives back the input |
| `PyText.SplitWithoutSeparator` | app.py:39 | a text without the separator is split into itself alone |
| `PyText.SplitOnce` | app.py:40-41 | `split(",", 1)` has two parts exactly when the line holds a comma; then they are the text before the first comma and the text after it, otherwise the line itself |
| `Recipients.Lines` | app.py:39 | the loop always runs over at least one piece, even for empty input |
| `Recipients.ParseLine` | app.py:40-43 | a piece gives a recipient exactly when it holds a comma; the email is the stripped text before the first comma and the company the stripped text after it |
| `Recipients.Parsed` | app.py:38-43 | the recipients of the text; no contract of its own, its meaning is fixed by `ParsedFromLines` and `CommaLessLinesDropped` |
| `Recipients.ParseRecipients` | app.py:38-43 | the loop's list equals the recipients of the pieces that hold a comma, in order |
| `Recipients.ParsedFromLines` | app.py:39-43 | recipient k comes from piece ks[k], the ks increase, a piece is used exactly when it holds a comma, and later commas stay in the company |
| `Recipients.CommaLessLinesDropped` | app.py:40-41 | there are never more recipients than pieces, and a recipient exists only if some piece holds a comma |
| `Recipients.ParsedKeepsOrder` | app.py:39-43 | parsing two runs of pieces one after the other gives the recipients of the first run followed by those of the second |
| `Recipients.RealNewlinesDoNotSeparate` | app.py:39 | stripped text without backslash-n is a single piece and gives at most one recipient, exactly when it holds a comma |
| `Seqs.FilterMapKept` | app.py:38-43 | keeping the accepted elements yields each accepted element once, from increasing positions, and exactly the accepted positions |
| `Seqs.FilterMapAppend` | app.py:38-43 | keeping the accepted elements of a concatenation keeps those of each part, in order |
| `Template.Render` | app.py:64 | `email_body_template.format(company=..., email=...)`; no contract of its own, its meaning is fixed by `RenderUnparse`, `ParseInverse` and `RenderSucceedsExactlyOnTemplates` and the error lemmas below |
| `Template.Parse` | app.py:64 | reads the whole template left to right, one `Next` step at a time, stopping at the first error; no contract of its own, `ParseInverse` states that what it reads is the template's text |
| `Template.RenderUnparse` | app.py:64 | a template written as literal text (braces doubled), `{company}` and `{email}` renders to the text with the company and the sender's address put in |
| `Template.ParseInverse` | app.py:64 | a template that renders is exactly the template text of the pieces it is read as |
| `Template.RenderSucceedsExactlyOnTemplates` | app.py:64 | a template renders exactly when it is written from literal text and the two fields, and then to their values whichever way it is so written |
| `Template.RenderEscape` | app.py:64 | escaped literal text renders as itself in front of whatever follows |
| `Template.RenderWithoutFields` | app.py:64 | a template with no braces renders unchanged |
| `Template.RenderFieldValues` | app.py:64 | `{email}` renders as the sender's address and `{company}` as the recipient's company |
| `Template.RenderAfterPieces` | app.py:64 | text behind any literal text and fields renders behind their values, and fails exactly when it fails on its own, with the same error |
| `Template.RenderStrayClose` | app.py:64 | a `}` that is not doubled makes rendering fail, whatever literal text and fields come before it |
| `Template.RenderTrailingOpen` | app.py:64 | a `{` at the end of the template makes rendering fail, whatever literal text and fields come before it |
| `Template.RenderUnclosed` | app.py:64 | a field opened by `{` and never closed makes rendering fail, whatever literal text and fields come before it |
| `Template.RenderUnknownField` | app.py:64 | a field named anything but `company` or `email` makes rendering fail with that name, whatever literal text and fields come before it |
| `Template.Next` | app.py:64 | one step of reading the template: a piece read successfully is exactly the text it consumed, and something is always consumed |
| `Session.MessageFor` | app.py:58-72 | the message for one recipient when its body renders; no contract of its own, its meaning is fixed by `SubmittedAreRenderedRecipients` |
| `Session.FailureFor` | app.py:58-74 | the failure entry for one recipient and the server's answer; no contract of its own, its meaning is fixed by `FailuresAreFailedAttempts` |
| `Session.ProgressUpTo` | app.py:76 | the progress values after the first recipients; no contract of its own, its meaning is fixed by `ProgressCounts` |
| `Session.Attempt` | app.py:56-74 | one recipient: a message, from the sender to the recipient with the rendered body, is handed to the server exactly when the body renders; there is a failure exactly when the body does not render or the server refuses, with the render error first; every attempt ends in a message or a failure |
| `Session.ProgressCounts` | app.py:76 | after the k-th of n recipients the progress value is k of n, n is never zero when it is set, and the last value is n of n |
| `Session.SendAll` | app.py:55-77 | the messages handed to the server are those of the recipients whose body renders, in order, `failures` holds the failed attempts in order, and one progress value is set per recipient as `ProgressCounts` states |
| `Session.RunSession` | app.py:28-80 | missing upload, then empty credentials, then a failed connection each end the session with nothing sent; otherwise the parsed recipients are all attempted as `SendAll` states |
| `Session.FailuresAreFailedAttempts` | app.py:55-74 | `failures` has one entry per recipient whose body fails to render or whose message is refused, with its address and that error, in recipient order, and none for successes |
| `Session.SubmittedAreRenderedRecipients` | app.py:58-72 | exactly the recipients whose body renders are sent a message, once each and in order, from the sender, with subject "Application", the rendered body and the resume attached |
| `Session.TemplateErrorFailsEveryRecipient` | app.py:58-74 | a render error does not stop the loop: with a template that does not render, every recipient still gets its own failure entry, in order, and nothing is sent |

## Left out

- The Streamlit page: widgets, page setup, the progress bar's drawing, and the
  `st.error`, `st.success` and `st.json` output (app.py:8-26, 30, 32, 46, 52, 80-82).
  These are UI only; the outcome is the model's `Report` instead.
- Writing the uploaded PDF to disk and reading it again for every message
  (app.py:34-36, 67-68). This is file I/O; the attachment is kept as the file's name,
  and a failing read is not modelled.
- The SMTP calls `SMTP(...)`, `starttls`, `login` and `sendmail` (app.py:48-50, 72).
  They are network calls into a library; their outcomes are the inputs `connectError`
  and `deliveries`.
- Session.RunSession: `smtp.quit()` (app.py:79) is assumed to succeed. It runs outside
  any `try`, so when it raises (say the connection dropped during the loop) the handler
  ends there and the success message and the `failures` list (app.py:80-82) are never
  shown; the model still reports `Finished` with the failures.
- Session.RunSession: the handler is assumed to run to its end. Streamlit can end a run
  between two recipients (a rerun or a stop); its control exceptions are not caught by
  `except Exception` (app.py:73), and the progress call (app.py:76) is outside the `try`.
  The model has no such early end: every parsed recipient is attempted.
- MIME message construction (app.py:59-70). It is a library; the model keeps the
  sender, recipient, subject, body and attachment name of each message.
- `time.sleep` between messages (app.py:77). It only affects timing.
- Template.Parse: only literal text, `{{`, `}}`, `{company}` and `{email}` are modelled.
  Format specs (`{company:>10}`), conversions (`{company!r}`), attribute and index access
  (`{company.title}`, `{company[0]}`) and positional fields (`{}`, `{0}`) are all errors
  in the model. Python renders some of them, and an index field can fail for one
  company and not another.
- Template.Parse: a field runs from `{` to the next `}`. Python raises on a `{` inside a
  field name and counts nested braces only inside a format spec. Without format specs,
  templates render in the same cases; only the kind of error can differ, as for `{a{b}}`.
- Session.SendAll: the error of a failure is the kind of format error or the server's
  reason, not the text of Python's exception message.
- Session.SendAll: the progress value `i / len(recipients)` is kept as the pair
  (i, total), not as a floating-point number.
- Session.RunSession: `deliveries` holds one answer per parsed recipient; the answer for
  a recipient whose body does not render is unused, because `sendmail` is never called
  for it.
- Text is a sequence of Unicode scalar values; Python strings may also hold lone
  surrogates, which the model cannot represent.
