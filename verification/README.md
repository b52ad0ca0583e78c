# Verified models of the Sudoku game and the directory server

The project models two client/server programs and proves what their users rely on.

**The Sudoku game** (`tp1_sockets`). A client reads typed lines, turns them into commands of one or
four bytes and sends them to a server, which plays them on a flat character board and answers each
with a string behind a three-byte length. `SudokuRules`, `SudokuGame` and `SudokuPicture` say what
the game is without bytes: the rule of Sudoku, the moves, the drawing. `SudokuBoard`,
`SudokuSocket`, `SudokuProtocol`, `SudokuServer` and `SudokuClient` follow the C code with arrays,
loops and status fields, and each method is tied to those definitions. `SudokuSession` puts the two
processes side by side: one step is one system call of one process, with any byte count the kernel
may return. `SudokuTyped` says what each typed line does and shows in every such run.

**The directory server** (`tp3_ftp_multiclient_server`). Any number of clients make, remove and list
directory names in one set behind a lock, over a protocol of text lines. `Lines`, `FtpProtocol`,
`FtpConfig`, `FtpDirectories` and `FtpCommand` model the line framing, the configuration file, the
sorted set and its listing, the parser, the login and the replies; `FtpReplies` writes the replies
out, word for word. `FtpServer` and `FtpClient` follow
the two programs' loops. `FtpSession` is one client and the thread that attends it, step by step;
`FtpInvariant` is what every such step keeps; `FtpConcurrent` runs any number of sessions together,
with every lock section as one step, `FtpTranscript` says what the clients read in all these runs,
and `FtpProgress` shows that they all come to their end.

The main results, each for all inputs and all runs:

- `SudokuSession.SessionSafety`, `SessionProgress`, `SessionComplete`: for every script, every
  interleaving and every fragmentation the player sees the answers of the abstract game, in order,
  each without its last byte; nothing gets stuck, and every run ends.
- `SudokuTyped.TypedVerify`, `TypedGet`, `TypedReset`, `TypedPut`: in every run each typed line has
  its effect on the server's board, and the player reads exactly the characters it should.
- `SudokuBoard.Board.Verify` with `SudokuRules.ConsistentByUnits` and `FullAndConsistentIsSolved`:
  the bit masks decide the rule of Sudoku, and a full board that passes is solved.
- `SudokuGame.VerifyAnswersHistory`: `verify` answers ERROR exactly when the board is inconsistent
  or an earlier failed check was not cleared since.
- `FtpConcurrent.Linearizable`, `Synchronised`, `Conservation`, `OnlyAfterLogin`: with any number of
  sessions the replies are those of one sequential set, clients never lose step with the server,
  and names are conserved.
- `FtpTranscript.Transcript`: in all these runs each query means what its words say, each reply is
  the line, code and configured text the login and the effect call for, and listings are in the
  order of their octets.
- `FtpConcurrent.NeverStuck`, `FtpProgress.EveryRunEnds`, `SessionsComplete`: the sessions cannot
  block or run for ever, and in the end every script was asked and answered in full.

Where the code differs from its documentation the code was followed:

- The length header of a string of 10 to 99 bytes is two digits and a NUL, not three digits
  (`tp1_sockets/protocol.c:42`); `HeaderDecodes` shows why reading it back still works.
- The directory client's test for the answer to QUIT stands behind a condition that is always true
  (`tp3_ftp_multiclient_server/common_client.cpp:62`), so the client does not leave at 221; it
  leaves at the next empty line.
- A query without a space that is longer than five characters is its own name and its own argument
  (`tp3_ftp_multiclient_server/common_command.cpp:180-183`): `find` fails, and adding one to its
  result wraps around to position 0.
- Unknown commands get 530, and lines end in LF only, unlike the replies of RFC 959 (sections 4.2
  and 5.4).

## Model

| member | source | states |
|---|---|---|
| SudokuRules.ConsistentByUnits | tp1_sockets/board.c:71-137 | no two cells sharing a row, column or box hold the same non-zero digit exactly when none of the 27 units repeats one |
| SudokuRules.RepeatsMeaning | tp1_sockets/board.c:81-92 | the running check of a unit finds a repetition exactly when two different places hold the same non-zero digit |
| SudokuRules.Pigeonhole | tp1_sockets/board.c:71-75 | nine non-zero digits without a repetition contain each of 1 to 9 exactly once |
| SudokuRules.FullAndConsistentIsSolved | tp1_sockets/board.c:71-75 | on a consistent board without zeros every row, column and box is a permutation of 1 to 9 |
| SudokuMask.SetBitSetsOne | tp1_sockets/board.c:84-88 | setting bit k of a mask makes bit k one and leaves every other bit as it was |
| SudokuMask.RecordsSnoc | tp1_sockets/board.c:84-89 | one step of a verifier keeps the mask an exact record of the values seen (bit 9-v set iff v was seen, bit 9 never), and its test fires exactly when the new value repeats an old non-zero one |
| SudokuBoard.AllUnits | tp1_sockets/board.c:71-137 | nine rows, nine columns and the nine boxes in the order of the quadruple loop are all the units there are: none repeats iff the board is consistent |
| SudokuBoard.ShowsOne | tp1_sockets/board.c:30-50 | a board text shows one grid only, so the abstract game is determined by the two buffers and the status |
| SudokuBoard.Board.Read | tp1_sockets/board.c:12-28 | a well-formed text, copied into two zeroed buffers, starts the game with its digits as clues and as cells: cell (i, j), from 0, is character 18i+2j |
| SudokuBoard.Board.ValueGet | tp1_sockets/board.c:30-39 | the stepping loop ends at character 18(i-1)+2(j-1), which is the digit of cell (i, j) |
| SudokuBoard.Board.ValueGetOriginal | tp1_sockets/board.c:41-50 | the same on the original text: the clue at (i, j) |
| SudokuBoard.Board.ValueSet | tp1_sockets/board.c:52-61 | exactly the character 18(i-1)+2(j-1) changes; separators, other cells and the original stay |
| SudokuBoard.Board.Put | tp1_sockets/board.c:63-69 | a put on a clue only marks the status, any other changes exactly its cell |
| SudokuBoard.Board.RowVerify | tp1_sockets/board.c:77-93 | the status becomes BOARD_INVALID exactly when some row repeats a digit |
| SudokuBoard.Board.ColVerify | tp1_sockets/board.c:95-111 | the status becomes BOARD_INVALID exactly when some column repeats a digit |
| SudokuBoard.Board.CellVerify | tp1_sockets/board.c:115-137 | the quadruple loop visits the nine cells of each box once and marks the board exactly when some box repeats a digit |
| SudokuBoard.Board.Verify | tp1_sockets/board.c:71-75 | the status becomes BOARD_INVALID exactly when the board breaks the rule of Sudoku, and is kept otherwise |
| SudokuBoard.Board.Reset | tp1_sockets/board.c:139-143 | the copy up to the first NUL restores all 200 characters of the original, and the status |
| SudokuGame.AnswersPrefix | tp1_sockets/sudoku.c:57-60 | the answers to the first commands do not depend on the later ones |
| SudokuGame.AnswerFits | tp1_sockets/server.c:56-89 | every answer has between 1 and 722 bytes and no NUL, so its header can carry it and the client's buffer holds it |
| SudokuGame.RunKeepsClues | tp1_sockets/board.c:63-69 | over any run clue cells keep their digits and BOARD_NON_MODIFIABLE_VALUE never outlives a command |
| SudokuGame.StatusIsHistory | tp1_sockets/server.c:56-79 | after any run the status is BOARD_INVALID exactly when some check failed and no reset or rejected put came after it |
| SudokuGame.VerifyAnswersHistory | tp1_sockets/server.c:68-75 | `verify` answers `ERROR` and a newline iff the board is inconsistent now or such an uncleared failure exists, and `OK` and a newline otherwise; so OK means consistent now |
| SudokuGame.CellsAreHistory | tp1_sockets/board.c:63-69 | after any run a clue cell holds its clue and a free cell the last value put there since the last reset, or 0 |
| SudokuGame.PlayerSees | tp1_sockets/server.c:56-82 | a put on a clue is refused in the very words of the program; every other board shown has at 76r+4c-40 the clue, the last value accepted or a blank, and the lattice of U, =, -, +, bar and newline everywhere else |
| SudokuGame.UnknownAnswer | tp1_sockets/server.c:83-88 | any other letter changes nothing and gets the complaint about an invalid command |
| SudokuPicture.TemplateAt | tp1_sockets/server.c:32-54 | the 19 rows printed one after the other: the character at any offset of the 722-byte template |
| SudokuPicture.SlotOfCell | tp1_sockets/server.c:14-25 | cell (k, j) is drawn at 76k+4j-40, inside the template, and different cells at different offsets |
| SudokuPicture.CellOfSlot | tp1_sockets/server.c:14-25 | every offset of that kind belongs to one of the 81 cells |
| SudokuPicture.PictureDecodes | tp1_sockets/server.c:14-25 | reading the 81 digits back from a drawing gives the board: drawing loses nothing |
| SudokuPicture.PictureOutsideSlots | tp1_sockets/server.c:14-25 | every other byte of a drawing is the template's |
| SudokuPicture.PictureDepicts | tp1_sockets/server.c:5-54 | the drawing, character by character: a blank for an empty cell, its digit for any other, and a closed form of the lattice at the remaining offsets |
| SudokuServer.NextSlot | tp1_sockets/server.c:14-25 | between a cell's offset and the next one visited, by the step of 4 or the jump of 44, there is no other cell |
| SudokuServer.FormatBoard | tp1_sockets/server.c:32-54 | the 19 strings fill the buffer with the template and a NUL |
| SudokuServer.DrawBoard | tp1_sockets/server.c:5-25 | the loop that also moves its own index ends, stays inside the 723 bytes and leaves the drawing: blanks in empty cells, digits in the others, the lattice around |
| SudokuServer.SendBoard | tp1_sockets/server.c:5-30 | the drawing goes out as one frame |
| SudokuSocket.Socket.Receive | tp1_sockets/socket.c:103-127 | whatever the short counts, the buffer gets exactly the next bytes of the stream; the status is SUCCESS iff there were any, else END, and FAILURE never |
| SudokuSocket.Socket.Send | tp1_sockets/socket.c:130-150 | on SUCCESS exactly the bytes offered went out, on FAILURE a proper prefix of them |
| SudokuProtocol.DecodeEncode | tp1_sockets/protocol.c:3-32 | encoding a list of commands with fields in 0 to 255 and decoding it gives the list back |
| SudokuProtocol.SendCommand | tp1_sockets/protocol.c:3-15 | a command goes out as its letter, a put as P, row, column and value in this order |
| SudokuProtocol.ReceiveCommand | tp1_sockets/protocol.c:17-32 | the command at the front of the stream is received and exactly its bytes are consumed; at the end of the stream the record keeps what it had |
| SudokuProtocol.HeaderDecodes | tp1_sockets/protocol.c:34-59 | `atoi` reads the three header bytes back as the length iff the length is at most 999, in all three branches |
| SudokuProtocol.HeaderBytes | tp1_sockets/protocol.c:39-45 | the three header bytes themselves: two zeros and a digit, two digits and a NUL, or three digits |
| SudokuProtocol.SendString | tp1_sockets/protocol.c:34-48 | a string of up to 999 bytes goes out behind these three bytes |
| SudokuProtocol.ReceiveString | tp1_sockets/protocol.c:50-68 | one frame is consumed and no more; the message is shown without its last byte, which is overwritten by a NUL; an empty message is a failure |
| SudokuServer.ProcessCommand | tp1_sockets/server.c:56-89 | each command moves the board as the abstract game does and sends that game's answer as one frame |
| SudokuServer.RunServer | tp1_sockets/sudoku.c:49-65 | for any stream of commands the answers of the abstract game go back in order and the game ends with SUDOKU_ENDGAME when the stream does |
| SudokuClient.SkipDelimiters | tp1_sockets/client.c:41 | the tokenizer's first scan skips exactly the spaces ahead |
| SudokuClient.StrtokR | tp1_sockets/client.c:41-49 | a call yields NULL iff only spaces are left; otherwise the buffer holds the next token, cut off by a NUL, and the saved pointer the text after it |
| SudokuClient.NeverNull | tp1_sockets/client.c:32-70 | on a line that ends in a newline no tokenizer call whose result is used returns NULL |
| SudokuClient.CommandProcess | tp1_sockets/client.c:32-91 | the destructive parse leaves V for `verify`, G for `get`, R for `reset` and E for `exit` or an octet 255 in front; P and the three digits for a well-formed put; the status untouched for a put with a bad place; and an invalid status for every other line |
| SudokuClient.PlainWords | tp1_sockets/client.c:71-85 | what the argument-free words mean, and that exactly `exit` and a leading octet 255 end the game |
| SudokuClient.PutWords | tp1_sockets/client.c:42-63 | four tokens of the right shape are a put of exactly those digits, nothing else is, and only a bad place is reported as such |
| SudokuClient.OtherWords | tp1_sockets/client.c:64-89 | every other line is rejected |
| SudokuClient.NewlineInLastToken | tp1_sockets/client.c:48-56 | the newline can only be in the last token of a line |
| SudokuClient.PutGrammar | tp1_sockets/client.c:42-59 | a line is a put of v at (r, c) exactly when its tokens are put, one digit, in, and `r,c` with the newline, r and c from 1 to 9 |
| SudokuClient.ParsePrinted | tp1_sockets/client.c:42-59 | typing out a legal put and parsing the line gives it back |
| SudokuClient.ParseIsLegal | tp1_sockets/client.c:32-91 | every command the client accepts is legal and can be encoded |
| SudokuClient.Play | tp1_sockets/sudoku.c:68-99 | whatever the replies, the script's commands go out in order, nothing for a rejected line, and each reply is read whole and shown |
| SudokuSession.StepKeeps | tp1_sockets/sudoku.c:49-99 | the invariant of the two processes survives every step |
| SudokuSession.SessionSafety | tp1_sockets/sudoku.c:49-99 | in every reachable state the replies shown are the first answers of the abstract game, at most one command waits, and at the prompt both channels are empty |
| SudokuSession.SessionProgress | tp1_sockets/sudoku.c:49-99 | no reachable state is stuck before the end, and a run has at most a fixed number of steps per script line |
| SudokuSession.SessionComplete | tp1_sockets/sudoku.c:49-99 | a run that cannot go on has sent the whole script, shown all its answers, ended the server by end of stream and left nothing in flight |
| SudokuTyped.ScriptLineByLine | tp1_sockets/sudoku.c:81-97 | a script sends, line by line, V, G, R or the put typed, nothing for any other line, and nothing from an exit on |
| SudokuTyped.TypedVerify | tp1_sockets/server.c:68-75 | in every run a typed `verify` leaves the server's board alone and shows `ERROR` or `OK` by the board and the history of failed checks |
| SudokuTyped.TypedGet | tp1_sockets/server.c:80-82 | in every run a typed `get` changes nothing at the server and shows its board, every character of it |
| SudokuTyped.TypedReset | tp1_sockets/server.c:76-79 | in every run a typed `reset` makes the server's cells the clues, clears a failed check and shows the clues |
| SudokuTyped.TypedPut | tp1_sockets/server.c:59-67 | in every run a typed put on a clue changes no cell, clears a failed check and is refused in words; any other changes exactly its cell and shows the new board |
| Lines.LinesReadPrefix | tp3_ftp_multiclient_server/common_protocol.cpp:27-36 | lines read off a stream of lines are its first lines, and what is left is the others |
| Lines.SplitConcat | tp3_ftp_multiclient_server/common_protocol.cpp:27-36 | lines laid end to end can be cut apart again |
| FtpProtocol.Socket.Send | tp3_ftp_multiclient_server/common_socket.cpp:41-65 | what goes out is a prefix of the bytes offered, all of them unless a call failed; it throws iff the last call reported -1 |
| FtpProtocol.Socket.Receive | tp3_ftp_multiclient_server/common_socket.cpp:69-97 | exactly the next bytes arrive whatever the short counts, and the socket is dead iff none did |
| FtpProtocol.ReceiveString | tp3_ftp_multiclient_server/common_protocol.cpp:27-36 | exactly one line, with its newline, leaves the stream |
| FtpConfig.Config.constructor | tp3_ftp_multiclient_server/common_config.cpp:5-16 | the loop ends and loads the map that the function `Load` defines for the text |
| FtpConfig.LoadEntry | tp3_ftp_multiclient_server/common_config.cpp:9-14 | one iteration on a well-formed text takes exactly its first entry, with the text's end noticed iff the final newline is missing |
| FtpConfig.LoadSpurious | tp3_ftp_multiclient_server/common_config.cpp:9-14 | the extra iteration after a final newline binds the empty key only, to the previous value and one more newline |
| FtpConfig.LoadFile | tp3_ftp_multiclient_server/common_config.cpp:5-22 | in a key=value text, with or without a final newline, a non-empty key is bound iff it occurs, to its first value and a newline |
| FtpConfig.MessagesAreLines | tp3_ftp_multiclient_server/common_config.cpp:19-22 | so every configured message is one line |
| FtpDirectories.InsertSorted | tp3_ftp_multiclient_server/common_server.cpp:105-112 | inserting keeps the names strictly sorted and adds exactly the one name |
| FtpDirectories.EraseSorted | tp3_ftp_multiclient_server/common_server.cpp:115-124 | erasing keeps the names strictly sorted and removes exactly the one name |
| FtpDirectories.LessMeaning | tp3_ftp_multiclient_server/common_server.h:18 | the order of names: a proper prefix first, else the smaller octet at the first difference |
| FtpDirectories.ListLineIs | tp3_ftp_multiclient_server/common_server.cpp:131-132 | a listing line is the fixed prefix, written out, and the name |
| FtpDirectories.SortedPrecedes | tp3_ftp_multiclient_server/common_server.cpp:130-131 | in the stored sequence every name comes before the later ones in that order |
| FtpDirectories.SortedIsUnique | tp3_ftp_multiclient_server/common_server.cpp:127-134 | a set has one strictly sorted sequence only, whatever operations led to it |
| FtpDirectories.ListingRecoversNames | tp3_ftp_multiclient_server/common_server.cpp:127-134 | cutting a listing into lines and dropping the prefix gives the names back |
| FtpDirectories.ListingIsCanonical | tp3_ftp_multiclient_server/common_server.cpp:127-134 | two listings are equal exactly when the sets are |
| FtpCommand.CreateCommand | tp3_ftp_multiclient_server/common_command.cpp:176-190 | no string position is out of range, not even when the unsigned arithmetic wraps around, and the result is the parse of the query |
| FtpCommand.ArgumentIsLine | tp3_ftp_multiclient_server/common_command.cpp:176-190 | the argument of a query line is empty or ends in its only newline |
| FtpCommand.ParsePrint | tp3_ftp_multiclient_server/common_command.cpp:176-219 | typing a command and parsing it gives it back |
| FtpCommand.ParseMeans | tp3_ftp_multiclient_server/common_command.cpp:176-219 | for every query line and command, both ways: the query parses to the command iff its text is that word alone, or that word, a space and the argument; all other lines are invalid commands |
| FtpCommand.UserIsLatest | tp3_ftp_multiclient_server/common_command.cpp:8-15 | the remembered user is the one of the latest USER command |
| FtpCommand.LoggedIsHistory | tp3_ftp_multiclient_server/common_command.cpp:19-41 | a session is logged in iff some earlier PASS had the text configured as `password` while the latest USER before it had the one configured as `user` |
| FtpCommand.ListLineCode | tp3_ftp_multiclient_server/common_server.cpp:131-132 | no listing line has the code 226, whatever the directory's name |
| FtpCommand.ReplyShape | tp3_ftp_multiclient_server/common_command.cpp:8-173 | every reply is one line whose code is not 150, or, exactly for a logged-in LIST, starts with 150 and ends with its only later line of code 226 |
| FtpCommand.ReplyTells | tp3_ftp_multiclient_server/common_command.cpp:19-153 | the reply's code tells what happened: 230 iff the credentials were right and the session is now logged in, 257 iff MKD added the name, 250 iff RMD removed it, else 530 or 550 |
| FtpReplies.ReplyIsPrescribed | tp3_ftp_multiclient_server/common_command.cpp:8-173 | the lines of every reply, by command, login and effect, with their codes and the configuration entries they quote |
| FtpReplies.HelloIs | tp3_ftp_multiclient_server/common_server.cpp:73-78 | the greeting is 220, a space and the entry `newClient` |
| FtpServer.Server.AddDirectory | tp3_ftp_multiclient_server/common_server.cpp:105-112 | succeeds iff the name was absent, and adds exactly that name |
| FtpServer.Server.RemoveDirectory | tp3_ftp_multiclient_server/common_server.cpp:115-124 | succeeds iff the name was present, and removes exactly that name |
| FtpServer.Server.GetList | tp3_ftp_multiclient_server/common_server.cpp:127-134 | the accumulated string is one line per name, prefix and name, in the order of the octets |
| FtpServer.ListResponse | tp3_ftp_multiclient_server/common_command.cpp:58-73 | 150, one line per name and 226 go out, also when there are no names |
| FtpServer.SendResponse | tp3_ftp_multiclient_server/common_command.cpp:8-173 | each command sends exactly the prescribed lines, the login and the directories move as the sequential meaning says, and only QUIT ends the session |
| FtpServer.RespondQuery | tp3_ftp_multiclient_server/common_server.cpp:61-70 | the same for a query, whose words name the command |
| FtpServer.RespondClient | tp3_ftp_multiclient_server/common_server.cpp:41-70 | a whole session: greeting, one reply per query in order, up to QUIT or the empty line, with nothing read beyond |
| FtpServer.ServeGood | tp3_ftp_multiclient_server/common_server.cpp:41-70 | every query up to QUIT gets one well-shaped reply and the directories stay sorted lines |
| FtpServer.ServeLogin | tp3_ftp_multiclient_server/common_command.cpp:8-41 | the login state the server keeps is the one the history of commands determines |
| FtpClient.GetCode | tp3_ftp_multiclient_server/common_client.cpp:112-117 | the first characters are copied; past the end comes a NUL and then anything |
| FtpClient.CodeRead | tp3_ftp_multiclient_server/common_client.cpp:93-95 | even so, comparing the code read with a three-digit code is right for the empty string and every line |
| FtpClient.ReceiveList | tp3_ftp_multiclient_server/common_client.cpp:103-109 | the rest of a listing is read and shown up to its only 226 line, and nothing behind it is touched |
| FtpClient.RunClient | tp3_ftp_multiclient_server/common_client.cpp:45-71 | the queries and a farewell go out, the greeting and every reply are shown in full, nothing is left unread |
| FtpClient.ServerSuitsClient | tp3_ftp_multiclient_server/common_server.cpp:41-57 | what the server sends for a client's queries meets the client's needs: one well-shaped reply per query |
| FtpInvariant.DirectoryStepLegal | tp3_ftp_multiclient_server/common_command.cpp:106-153 | an MKD or RMD does to the set what it reports, and keeps it sorted lines |
| FtpInvariant.ReplyIsOver | tp3_ftp_multiclient_server/common_client.cpp:54-66 | the line that makes the client stop reading is the last line of the whole reply, and everything was sent |
| FtpInvariant.StepKeeps | tp3_ftp_multiclient_server/common_command.cpp:8-173 | every step of a session keeps its invariant, extends what it reports, and moves the directories only as it reports |
| FtpConcurrent.StepKeepsSystem | tp3_ftp_multiclient_server/common_server.cpp:41-57 | the invariant of all sessions and the directories survives every step of any session |
| FtpConcurrent.Linearizable | tp3_ftp_multiclient_server/common_command.cpp:58-153 | in every interleaving the effects, in the order of the lock sections, are legal for one sequential set that equals the stored one, and each session saw request, at most one own effect, and the reply that effect calls for |
| FtpConcurrent.Synchronised | tp3_ftp_multiclient_server/common_client.cpp:45-71 | at the prompt no byte is in flight; every query was answered by one line, or, for a logged-in LIST, by 150, the listed names and 226 |
| FtpConcurrent.ChangesAlternate | tp3_ftp_multiclient_server/common_server.cpp:105-124 | in a legal sequence of effects the successful additions and removals of a name alternate, an addition first, and the name is present iff their number is odd |
| FtpConcurrent.Conservation | tp3_ftp_multiclient_server/common_server.cpp:105-124 | so it is in every interleaving of any number of sessions |
| FtpConcurrent.OnlyAfterLogin | tp3_ftp_multiclient_server/common_command.cpp:44-153 | a query touches the directories iff it is MKD, RMD or LIST after a right PASS; before one, every command that needs a login gets 530 |
| FtpConcurrent.RepliesTell | tp3_ftp_multiclient_server/common_command.cpp:106-153 | in every interleaving a logged-in client reads 257 iff its MKD added the name and 250 iff its RMD removed it, else 550 |
| FtpTranscript.Transcript | tp3_ftp_multiclient_server/common_command.cpp:8-219 | every exchange of every run: the command is the one the words name, the reply is the prescribed one given what this client typed before, and a listing is in the order of its octets |
| FtpTranscript.Greeted | tp3_ftp_multiclient_server/common_server.cpp:73-78 | in every run the first line on its way to a client is 220, a space and the entry `newClient` |
| FtpConcurrent.NeverStuck | tp3_ftp_multiclient_server/common_server.cpp:41-57 | in every reachable state a session can take a step, unless its client has left or a bare MKD of a logged-in client is due |
| FtpProgress.StepKeepsScript | tp3_ftp_multiclient_server/common_client.cpp:45-71 | no step loses, repeats or reorders a query: those asked and those to be asked are always the script's |
| FtpSession.QueryOfLine | tp3_ftp_multiclient_server/common_client.cpp:86-90 | the queries of a script are its lines up to the first empty one, each with a newline |
| FtpProgress.StepDescends | tp3_ftp_multiclient_server/common_server.cpp:41-70 | every step of a session uses up a script line, a stage of the answer or bytes in transit, in this order of weight |
| FtpProgress.EveryRunEnds | tp3_ftp_multiclient_server/common_server.cpp:41-70 | whatever the number of sessions and the interleaving, no run is endless |
| FtpProgress.SessionsComplete | tp3_ftp_multiclient_server/common_client.cpp:45-71 | when a session can do no more, and did not meet a bare MKD, its client has left after asking exactly its script's queries, each answered as the protocol prescribes, and its thread has finished |

## Left out

- Connection set-up and tear-down, and the thread and client lists of the directory server: both systems start from connected pairs; the number of sessions is arbitrary but fixed.
- Failing system calls above the socket loops: `SudokuSocket` and `FtpProtocol` model them (`lossy`), the layers above assume a connection that does not fail.
- Reading `board.txt` and the keyboard: the board text is nine rows of digits and separators without NULs, and typed Sudoku lines are shorter than 20 bytes and end in a newline, as the client's buffers need.
- The bare MKD of a logged-in client: it takes the last character off an empty string, which is undefined; `NeverStuck` names this state and the server methods require it away.
- Queries after QUIT: the server has gone, and the client would wait for ever; scripts have nothing but the end or an empty line after QUIT.
- `receive_string` after the other side closed: it appends the old byte for ever; every awaited line does arrive.
- A configuration file that cannot be opened or lacks a key: `Complete` asks for every message; `LoadFile` says which keys a file gives.
- Bytes are characters below 256; the sign of C's `char` matters only for the comparison with EOF, which the model makes with 255.
- The 8-bit counters of the board's getters and the C `int` of sizes and counts: the values in use stay far below their limits.
- The internals of `std::set` and `std::unordered_map`: a strictly sorted sequence and a map with the contracts of insert, erase, find and emplace.
- Text on consoles and in errors, command-line arguments and both `main` functions; the replies a client prints are kept, as `shown`.
- A number that bounds the steps of a directory session: `EveryRunEnds` says that all runs are finite, but a listing may be as long as the other sessions make it.
- The server's `quit` command and its shutdown while sessions run.
- FtpServer.RespondClient: models one session alone with all its queries on the way; the interleavings with the client and with other sessions are in `FtpSession` and `FtpConcurrent`.
- FtpClient.RunClient: has all replies on the way from the start, as long as there is one per query; timing is in `FtpSession`.
